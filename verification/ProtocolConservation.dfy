/**
 Conservation over whole runs: every accepted entry, transaction and public key
 together, is at each moment in exactly one place.
 */
module ProtocolConservation {
  import opened Wire
  import opened Routing
  import opened ShardAssigner
  import opened Receiver
  import opened Protocol
  import opened ProtocolInvariant

  // The transactions among some messages.
  function Carried(ms: seq<Msg>): multiset<Entry> {
    if ms == [] then multiset{}
    else Carried(ms[..|ms| - 1]) + if ms[|ms| - 1].TxMsg? then multiset{ms[|ms| - 1].entry} else multiset{}
  }

  lemma {:induction false} CarriedAppend(a: seq<Msg>, b: seq<Msg>)
    ensures Carried(a + b) == Carried(a) + Carried(b)
  {
    if b == [] {
      assert a + b == a;
    } else {
      assert (a + b)[..|a + b| - 1] == a + b[..|b| - 1];
      CarriedAppend(a, b[..|b| - 1]);
    }
  }

  lemma {:induction false} CarriedTxs(es: seq<Entry>)
    ensures Carried(TxMsgs(es)) == multiset(es)
  {
    if es != [] {
      var m := |es| - 1;
      assert TxMsgs(es)[..m] == TxMsgs(es[..m]);
      assert es == es[..m] + [es[m]];
      CarriedTxs(es[..m]);
    }
  }

  lemma CarriedOne(m: Msg)
    ensures Carried([]) == multiset{}
    ensures Carried([m]) == if m.TxMsg? then multiset{m.entry} else multiset{}
  {
    assert [m][..0] == [];
  }

  lemma CarriedSegment(n: nat, r: nat, es: seq<Entry>, i: nat)
    requires n > 0
    ensures Carried(Segment(n, r, es, i)) == multiset(ForShard(n, es, i))
  {
    hide ForShard;
    var f := ForShard(n, es, i);
    var h := if i == 0 then [HeaderMsg(Wrap32(r), Wrap32(n))] else [];
    var e := [EndMsg(Wrap32(r), Wrap32(|f|))];
    CarriedOne(HeaderMsg(Wrap32(r), Wrap32(n)));
    CarriedOne(e[0]);
    hide Carried, Wrap32;
    CarriedAppend(h + TxMsgs(f), e);
    CarriedAppend(h, TxMsgs(f));
    CarriedTxs(f);
  }

  // Shard i's share of the rounds from the k-th on.
  function ShareFrom(n: nat, rounds: seq<seq<Entry>>, i: nat, k: nat): multiset<Entry>
    requires n > 0 && k <= |rounds|
    decreases |rounds| - k
  {
    if k == |rounds| then multiset{} else multiset(ForShard(n, rounds[k], i)) + ShareFrom(n, rounds, i, k + 1)
  }

  lemma ShareFromStep(n: nat, rounds: seq<seq<Entry>>, i: nat, k: nat)
    requires n > 0 && k < |rounds|
    ensures ShareFrom(n, rounds, i, k) == multiset(ForShard(n, rounds[k], i)) + ShareFrom(n, rounds, i, k + 1)
  {
    hide ForShard;
  }

  lemma {:induction false} CarriedSegments(n: nat, rounds: seq<seq<Entry>>, i: nat, k: nat)
    requires n > 0 && k <= |rounds|
    ensures Carried(Segments(n, rounds, i, k)) == ShareFrom(n, rounds, i, k)
    decreases |rounds| - k
  {
    hide ForShard, Segment;
    if k < |rounds| {
      CarriedSegments(n, rounds, i, k + 1);
      CarriedSegment(n, k + 1, rounds[k], i);
      CarriedAppend(Segment(n, k + 1, rounds[k], i), Segments(n, rounds, i, k + 1));
    }
  }

  // ------------------------------------------------------------------
  // Where the entries of shard i's unfinished rounds are.

  // On its channel.
  function OnChannel(s: State, i: nat): multiset<Entry>
    requires i < |s.tx|
  {
    Carried(s.tx[i])
  }

  // In the buffer of a drain loop in progress.
  function InBuffer(s: State, i: nat): multiset<Entry>
    requires i < |s.followers|
  {
    if i == 0 then (if s.leader.Draining? then multiset(s.leader.d.buf) else multiset{})
    else if s.followers[i].Working? then multiset(s.followers[i].d.buf)
    else multiset{}
  }

  // Drained from the pool and not yet sent.
  function Unsent(c: Config, s: State, i: nat): multiset<Entry>
    requires ValidConfig(c) && Shape(c, s)
  {
    if s.assigner.Sending? then multiset(ForShard(c.n, s.assigner.es[s.assigner.next..], i)) else multiset{}
  }

  // Counted in a summary whose block is not out yet.
  function InSummary(c: Config, s: State, i: nat): multiset<Entry>
    requires ValidConfig(c) && i < |s.drained|
  {
    if |s.blocks| < s.drained[i] && |s.blocks| < |s.rounds| then multiset(ForShard(c.n, s.rounds[|s.blocks|], i))
    else multiset{}
  }

  function InFlight(c: Config, s: State, i: nat): multiset<Entry>
    requires ValidConfig(c) && Shape(c, s) && i < c.n
  {
    OnChannel(s, i) + InBuffer(s, i) + Unsent(c, s, i) + InSummary(c, s, i)
  }

  lemma CarriedConsumed(c: Config, s: State, i: nat)
    requires ValidConfig(c) && Shape(c, s) && i < c.n
    ensures Carried(Consumed(c, s, i)) == InBuffer(s, i)
  {
    var h := [HeaderMsg(s.leaderRound, Wrap32(c.n))];
    assert h[..0] == [];
    assert Carried(h) == multiset{};
    if i == 0 {
      if s.leader.Draining? {
        CarriedAppend(h, TxMsgs(s.leader.d.buf));
        CarriedTxs(s.leader.d.buf);
      }
    } else if s.followers[i].Working? {
      CarriedTxs(s.followers[i].d.buf);
    }
  }

  lemma CarriedToSend(c: Config, s: State, i: nat)
    requires ValidConfig(c) && Shape(c, s) && i < c.n
    ensures Carried(ToSend(c, s, i)) == Unsent(c, s, i)
  {
    hide ForShard;
    match s.assigner {
      case Intake =>
      case Sending(es, next, counts) =>
        var f := ForShard(c.n, es[next..], i);
        var e := [EndMsg(s.roundNumber, Wrap32(counts[i] + |f|))];
        assert e[..0] == [];
        assert Carried(e) == multiset{};
        CarriedAppend(TxMsgs(f), e);
        CarriedTxs(f);
      case Ending(counts, next) =>
        var e := [EndMsg(s.roundNumber, Wrap32(counts[i]))];
        assert e[..0] == [];
        assert Carried(e) == multiset{};
    }
  }

  // What is in flight for a shard is its share of the rounds without a block.
  lemma {:induction false} InFlightIsShare(c: Config, s: State, i: nat)
    requires ValidConfig(c) && Inv(c, s) && i < c.n
    ensures |s.blocks| <= |s.rounds|
    ensures InFlight(c, s, i) == ShareFrom(c.n, s.rounds, i, |s.blocks|)
  {
    assert StreamOk(c, s, i);
    assert i > 0 ==> FollowerOk(c, s, i);
    assert s.drained[i] == |s.blocks| || s.drained[i] == |s.blocks| + 1;
    assert |s.blocks| < |s.rounds| || s.drained[i] == |s.blocks|;
    if s.drained[i] > |s.blocks| {
      ShareFromStep(c.n, s.rounds, i, |s.blocks|);
    }
    hide Inv, ForShard, Segments, ToSend, Consumed, InBuffer, Unsent, ShareFrom, Carried;
    CarriedConsumed(c, s, i);
    CarriedToSend(c, s, i);
    CarriedAppend(Consumed(c, s, i) + s.tx[i], ToSend(c, s, i));
    CarriedAppend(Consumed(c, s, i), s.tx[i]);
    CarriedSegments(c.n, s.rounds, i, s.drained[i]);
  }

  // ------------------------------------------------------------------
  // Adding the shards up.

  function SharesBelow(n: nat, es: seq<Entry>, m: nat): multiset<Entry>
    requires n > 0
  {
    if m == 0 then multiset{} else SharesBelow(n, es, m - 1) + multiset(ForShard(n, es, m - 1))
  }

  lemma {:induction false} SharesBelowSnoc(n: nat, es: seq<Entry>, e: Entry, m: nat)
    requires n > 0
    ensures SharesBelow(n, es + [e], m)
         == SharesBelow(n, es, m) + if ShardForTx(e.tx, n) < m then multiset{e} else multiset{}
  {
    hide ShardForTx, ForShard;
    if m > 0 {
      SharesBelowSnoc(n, es, e, m - 1);
      ForShardSnoc(n, es, e, m - 1);
    }
  }

  lemma {:induction false} SharesBelowEmpty(n: nat, m: nat)
    requires n > 0
    ensures SharesBelow(n, [], m) == multiset{}
  {
    if m > 0 {
      SharesBelowEmpty(n, m - 1);
    }
  }

  // The shards' shares of a drained list are a partition of it.
  lemma {:induction false} SharesPartition(n: nat, es: seq<Entry>)
    requires n > 0
    ensures SharesBelow(n, es, n) == multiset(es)
  {
    hide ForShard;
    if es == [] {
      SharesBelowEmpty(n, n);
    } else {
      var e, es' := es[|es| - 1], es[..|es| - 1];
      assert es == es' + [e];
      SharesPartition(n, es');
      SharesBelowSnoc(n, es', e, n);
    }
  }

  function Drained(rounds: seq<seq<Entry>>, k: nat): multiset<Entry>
    requires k <= |rounds|
    decreases |rounds| - k
  {
    if k == |rounds| then multiset{} else multiset(rounds[k]) + Drained(rounds, k + 1)
  }

  function ShareFromBelow(n: nat, rounds: seq<seq<Entry>>, k: nat, m: nat): multiset<Entry>
    requires n > 0 && k <= |rounds|
  {
    if m == 0 then multiset{} else ShareFromBelow(n, rounds, k, m - 1) + ShareFrom(n, rounds, m - 1, k)
  }

  lemma {:induction false} ShareFromBelowEnd(n: nat, rounds: seq<seq<Entry>>, m: nat)
    requires n > 0
    ensures ShareFromBelow(n, rounds, |rounds|, m) == multiset{}
  {
    if m > 0 {
      ShareFromBelowEnd(n, rounds, m - 1);
    }
  }

  lemma {:induction false} ShareFromBelowStep(n: nat, rounds: seq<seq<Entry>>, k: nat, m: nat)
    requires n > 0 && k < |rounds|
    ensures ShareFromBelow(n, rounds, k, m) == SharesBelow(n, rounds[k], m) + ShareFromBelow(n, rounds, k + 1, m)
  {
    hide ForShard, ShareFrom;
    if m > 0 {
      ShareFromBelowStep(n, rounds, k, m - 1);
      ShareFromStep(n, rounds, m - 1, k);
      var a, b := SharesBelow(n, rounds[k], m - 1), ShareFromBelow(n, rounds, k + 1, m - 1);
      var f, d := multiset(ForShard(n, rounds[k], m - 1)), ShareFrom(n, rounds, m - 1, k + 1);
      assert ShareFromBelow(n, rounds, k, m) == (a + b) + (f + d);
      assert SharesBelow(n, rounds[k], m) == a + f;
      assert ShareFromBelow(n, rounds, k + 1, m) == b + d;
      hide *;
      Exchange(a, b, f, d);
    }
  }

  lemma Exchange(a: multiset<Entry>, b: multiset<Entry>, c: multiset<Entry>, d: multiset<Entry>)
    ensures (a + b) + (c + d) == (a + c) + (b + d)
  {
  }

  lemma {:induction false} SharesOfRounds(n: nat, rounds: seq<seq<Entry>>, k: nat)
    requires n > 0 && k <= |rounds|
    ensures ShareFromBelow(n, rounds, k, n) == Drained(rounds, k)
    decreases |rounds| - k
  {
    if k == |rounds| {
      ShareFromBelowEnd(n, rounds, n);
    } else {
      ShareFromBelowStep(n, rounds, k, n);
      SharesPartition(n, rounds[k]);
      SharesOfRounds(n, rounds, k + 1);
    }
  }

  // Everything in flight, over the shards below m.
  function InFlightBelow(c: Config, s: State, m: nat): multiset<Entry>
    requires ValidConfig(c) && Shape(c, s) && m <= c.n
  {
    if m == 0 then multiset{} else InFlightBelow(c, s, m - 1) + InFlight(c, s, m - 1)
  }

  lemma {:induction false} InFlightBelowIsShares(c: Config, s: State, m: nat)
    requires ValidConfig(c) && Shape(c, s) && Inv(c, s) && m <= c.n
    ensures |s.blocks| <= |s.rounds|
    ensures InFlightBelow(c, s, m) == ShareFromBelow(c.n, s.rounds, |s.blocks|, m)
  {
    hide Inv, InFlight, ShareFrom;
    if m == 0 {
      InFlightIsShare(c, s, 0);
    } else {
      InFlightIsShare(c, s, m - 1);
      InFlightBelowIsShares(c, s, m - 1);
    }
  }

  // ------------------------------------------------------------------
  // Accepted entries against the pool, the drained lists and the discards.

  // The entries of the first k drained lists: those counted in blocks.
  function Counted(rounds: seq<seq<Entry>>, k: nat): multiset<Entry>
    requires k <= |rounds|
  {
    if k == 0 then multiset{} else Counted(rounds, k - 1) + multiset(rounds[k - 1])
  }

  lemma {:induction false} CountedAndRest(rounds: seq<seq<Entry>>, k: nat)
    requires k <= |rounds|
    ensures Drained(rounds, 0) == Counted(rounds, k) + Drained(rounds, k)
  {
    if k > 0 {
      CountedAndRest(rounds, k - 1);
    }
  }

  lemma {:induction false} DrainedAppend(rounds: seq<seq<Entry>>, es: seq<Entry>, k: nat)
    requires k <= |rounds|
    ensures Drained(rounds + [es], k) == Drained(rounds, k) + multiset(es)
    decreases |rounds| - k
  {
    if k < |rounds| {
      DrainedAppend(rounds, es, k + 1);
    } else {
      assert Drained(rounds + [es], k + 1) == multiset{};
    }
  }

  ghost predicate Balanced(s: State) {
    multiset(s.accepted) == multiset(s.pool) + multiset(s.discarded) + Drained(s.rounds, 0)
  }

  lemma StepKeepsBalance(c: Config, s: State, step: Step)
    requires ValidConfig(c) && Shape(c, s) && Enabled(c, s, step) && Balanced(s)
    ensures Balanced(Apply(c, s, step))
  {
    if step.Request? {
      RequestKeepsBalance(c, s, step.batch);
      hide Balanced, AfterRequest;
    } else {
      SameHistory(c, s, step);
      hide Apply;
    }
  }

  lemma RequestKeepsBalance(c: Config, s: State, batch: seq<Entry>)
    requires ValidConfig(c) && Shape(c, s) && Balanced(s)
    ensures Balanced(AfterRequest(c, s, batch))
  {
    hide Taken, IntakeBatch, Drained;
    var pool := IntakeBatch(c.admit, c.capacity, s.pool, batch);
    assert pool == s.pool + pool[|s.pool|..];
    var s1 := s.(pool := pool, accepted := s.accepted + pool[|s.pool|..]);
    assert Balanced(s1);
    if |pool| >= c.blockSize {
      var es := Taken(pool, c.blockSize, c.n);
      assert pool == es + pool[|es|..];
      DrainedAppend(s.rounds, es, 0);
    }
  }

  lemma {:induction false} RunKeepsBalance(c: Config, s: State, steps: seq<Step>, t: State)
    requires ValidConfig(c) && Balanced(s) && RunsTo(c, s, steps, t)
    ensures Balanced(t)
    decreases |steps|
  {
    hide Balanced, Apply, Enabled;
    if steps != [] {
      StepKeepsBalance(c, s, steps[0]);
      RunKeepsBalance(c, Apply(c, s, steps[0]), steps[1..], t);
    }
  }

  // In every reachable state the accepted entries are, as a multiset, those
  // counted in finished blocks, those in flight, those waiting in the mempool
  // and those a drain has thrown away.
  lemma {:induction false} Conservation(c: Config, s: State)
    requires ValidConfig(c) && Reachable(c, s)
    ensures Shape(c, s) && |s.blocks| <= |s.rounds|
    ensures multiset(s.accepted)
         == Counted(s.rounds, |s.blocks|) + InFlightBelow(c, s, c.n) + multiset(s.pool) + multiset(s.discarded)
  {
    ReachableInv(c, s);
    var steps :| RunsTo(c, Init(c), steps, s);
    assert Balanced(Init(c));
    RunKeepsBalance(c, Init(c), steps, s);
    assert Shape(c, s);
    InFlightBelowIsShares(c, s, c.n);
    SharesOfRounds(c.n, s.rounds, |s.blocks|);
    CountedAndRest(s.rounds, |s.blocks|);
  }
}
