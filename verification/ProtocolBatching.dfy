/**
 What batch sizes mean for a run: how much a dispatch can throw away, and when
 nothing is thrown away and every shard gets the same share.
 */
module ProtocolBatching {
  import opened Wire
  import opened Routing
  import opened Mempool
  import opened ShardAssigner
  import opened Receiver
  import opened Generator
  import opened Arithmetic
  import opened Protocol

  // Every batch of the schedule has at most `most` transactions.
  ghost predicate BatchesAtMost(steps: seq<Step>, most: nat) {
    forall j :: 0 <= j < |steps| && steps[j].Request? ==> |steps[j].batch| <= most
  }

  // The entries the schedule's batches offer to the mempool.
  function Offered(c: Config, steps: seq<Step>): seq<Entry> {
    if steps == [] then []
    else OfferedBy(c, steps[0]) + Offered(c, steps[1..])
  }

  lemma ExactBelow(blockSize: nat, n: nat)
    requires n > 0
    ensures Exact(blockSize, n) == if blockSize < n then n else blockSize - blockSize % n
  {
    DivMod(blockSize, n);
    if blockSize < n {
      DivModUnique(blockSize, n, 0, blockSize);
    } else if blockSize / n > 0 {
      MulStep(0, blockSize / n, n);
    }
  }

  // A dispatch from a pool that overshot the block size by less than a batch.
  lemma LeftOver(pool: seq<Entry>, blockSize: nat, n: nat, most: nat)
    requires n > 0 && most > 0 && blockSize <= |pool| <= blockSize + most - 1
    ensures |pool| - |Taken(pool, blockSize, n)| <= most - 1 + blockSize % n
  {
    ExactBelow(blockSize, n);
    DivMod(blockSize, n);
  }

  lemma RequestEffect(c: Config, s: State, batch: seq<Entry>)
    requires ValidConfig(c) && Shape(c, s) && s.assigner.Intake?
    requires |s.pool| + |batch| <= c.capacity
    ensures var s' := AfterRequest(c, s, batch);
            var pool := s.pool + Admitted(c.admit, batch);
            && s'.accepted == s.accepted + Admitted(c.admit, batch)
            && if |pool| < c.blockSize then
                 s'.pool == pool && s'.rounds == s.rounds && s'.discarded == s.discarded
               else
                 && s'.pool == []
                 && s'.rounds == s.rounds + [Taken(pool, c.blockSize, c.n)]
                 && s'.discarded == s.discarded + pool[|Taken(pool, c.blockSize, c.n)|..]
  {
    hide Taken, IntakeBatch;
    IntakeTakesAll(c.admit, c.capacity, s.pool, batch);
    var pool := s.pool + Admitted(c.admit, batch);
    assert pool[|s.pool|..] == Admitted(c.admit, batch);
  }

  // The most one dispatch can throw away.
  function DiscardLimit(c: Config, most: nat): nat
    requires c.n > 0 && most > 0
  {
    most - 1 + c.blockSize % c.n
  }

  function TotalLimit(c: Config, most: nat, dispatches: nat): nat
    requires c.n > 0 && most > 0
  {
    dispatches * DiscardLimit(c, most)
  }

  lemma LimitsAddUp(c: Config, most: nat, first: nat, rest: nat)
    requires c.n > 0 && most > 0
    ensures TotalLimit(c, most, first + rest) == TotalLimit(c, most, first) + TotalLimit(c, most, rest)
    ensures TotalLimit(c, most, 0) == 0 && TotalLimit(c, most, 1) == DiscardLimit(c, most)
  {
    hide DiscardLimit;
    MulAdd(first, rest, DiscardLimit(c, most));
  }

  function OfferedBy(c: Config, step: Step): seq<Entry> {
    if step.Request? then Admitted(c.admit, step.batch) else []
  }

  lemma StepDiscards(c: Config, s: State, step: Step, most: nat)
    requires ValidConfig(c) && Shape(c, s) && Enabled(c, s, step)
    requires step.Request? ==> |step.batch| <= most
    requires most > 0 && |s.pool| < c.blockSize && c.blockSize + most - 1 <= c.capacity
    ensures var s' := Apply(c, s, step);
            && |s'.pool| < c.blockSize
            && s'.accepted == s.accepted + OfferedBy(c, step)
            && |s.rounds| <= |s'.rounds| <= |s.rounds| + 1
            && |s'.discarded| <= |s.discarded| + if |s'.rounds| == |s.rounds| then 0 else DiscardLimit(c, most)
  {
    if step.Request? {
      RequestEffect(c, s, step.batch);
      var pool := s.pool + Admitted(c.admit, step.batch);
      if |pool| >= c.blockSize {
        LeftOver(pool, c.blockSize, c.n, most);
      }
      hide Taken, Admitted, AfterRequest;
    } else {
      SameHistory(c, s, step);
    }
  }

  // When batches have at most `most` transactions and the block size plus one
  // such batch fits the mempool: between requests the pool stays below the
  // block size, no entry ever meets a full mempool, and each dispatch throws
  // away at most most - 1 + blockSize % n entries.
  lemma {:induction false} DiscardBoundFrom(c: Config, s: State, steps: seq<Step>, t: State, most: nat)
    requires ValidConfig(c) && RunsTo(c, s, steps, t) && BatchesAtMost(steps, most)
    requires most > 0 && |s.pool| < c.blockSize && c.blockSize + most - 1 <= c.capacity
    ensures |t.pool| < c.blockSize
    ensures t.accepted == s.accepted + Offered(c, steps)
    ensures |s.rounds| <= |t.rounds|
    ensures |t.discarded| <= |s.discarded| + TotalLimit(c, most, |t.rounds| - |s.rounds|)
    decreases |steps|
  {
    hide DiscardLimit, TotalLimit, Apply, Enabled;
    if steps != [] {
      var s' := Apply(c, s, steps[0]);
      StepDiscards(c, s, steps[0], most);
      hide Admitted, Shape;
      DiscardBoundFrom(c, s', steps[1..], t, most);
      assert OfferedBy(c, steps[0]) + Offered(c, steps[1..]) == Offered(c, steps);
      LimitsAddUp(c, most, |s'.rounds| - |s.rounds|, |t.rounds| - |s'.rounds|);
    } else {
      LimitsAddUp(c, most, 0, 0);
    }
  }

  lemma {:induction false} DiscardBound(c: Config, steps: seq<Step>, t: State, most: nat)
    requires ValidConfig(c) && RunsTo(c, Init(c), steps, t) && BatchesAtMost(steps, most)
    requires most > 0 && c.blockSize + most - 1 <= c.capacity
    ensures |t.pool| < c.blockSize
    ensures t.accepted == Offered(c, steps)
    ensures |t.discarded| <= TotalLimit(c, most, |t.rounds|)
  {
    hide TotalLimit, RunsTo;
    DiscardBoundFrom(c, Init(c), steps, t, most);
  }

  // A dispatch hands out its whole pool exactly when the pool holds no more
  // than the block size, rounded down to a multiple of the shard count and up
  // to one entry for every shard.
  lemma KeepsWholePool(pool: seq<Entry>, blockSize: nat, n: nat)
    requires n > 0 && |pool| >= blockSize
    ensures Taken(pool, blockSize, n) == pool
       <==> if blockSize < n then |pool| <= n else |pool| == blockSize && blockSize % n == 0
  {
    ExactBelow(blockSize, n);
    DivMod(blockSize, n);
  }

  // ------------------------------------------------------------------
  // Full batches.

  ghost predicate FullBatch(c: Config, batch: seq<Entry>, size: nat) {
    |batch| == size && forall j :: 0 <= j < size ==> c.admit(batch[j])
  }

  ghost predicate FullBatches(c: Config, steps: seq<Step>, size: nat) {
    forall j :: 0 <= j < |steps| && steps[j].Request? ==> FullBatch(c, steps[j].batch, size)
  }

  // What each dispatch throws away when the block size is a whole number of
  // batches.
  function Lost(blockSize: nat, n: nat): nat
    requires n > 0
  {
    if blockSize < n then 0 else blockSize % n
  }

  // A number of whole batches below the block size has room for one more.
  lemma OneMoreBatch(pool: nat, size: nat, blockSize: nat)
    requires size > 0 && pool % size == 0 && blockSize % size == 0 && pool < blockSize
    ensures pool + size <= blockSize
    ensures (pool + size) % size == 0
  {
    DivMod(pool, size);
    DivMod(blockSize, size);
    var p, b := pool / size, blockSize / size;
    if b < p {
      MulStep(b, p, size);
    }
    MulStep(p, b, size);
    MulAdd(p, 1, size);
    DivModUnique(pool + size, size, p + 1, 0);
  }

  lemma TakenFromBlock(pool: seq<Entry>, blockSize: nat, n: nat)
    requires n > 0 && |pool| == blockSize > 0
    ensures |Taken(pool, blockSize, n)| == blockSize - Lost(blockSize, n)
  {
    ExactBelow(blockSize, n);
    DivMod(blockSize, n);
  }

  // The pool between requests: whole batches below the block size, or, for a
  // mempool too small to ever hold a block, anything it can hold.
  ghost predicate WholeBatches(c: Config, pool: seq<Entry>, size: nat)
    requires size > 0
  {
    if c.blockSize <= c.capacity then |pool| < c.blockSize && |pool| % size == 0
    else |pool| <= c.capacity
  }

  lemma TooSmallForABlock(c: Config, s: State, batch: seq<Entry>)
    requires ValidConfig(c) && Shape(c, s) && s.assigner.Intake?
    requires c.capacity < c.blockSize && |s.pool| <= c.capacity
    ensures var s' := AfterRequest(c, s, batch);
            |s'.pool| <= c.capacity && s'.rounds == s.rounds && s'.discarded == s.discarded
  {
    hide IntakeBatch;
  }

  lemma FullRequestEffect(c: Config, s: State, batch: seq<Entry>, size: nat)
    requires ValidConfig(c) && Shape(c, s) && s.assigner.Intake?
    requires size > 0 && c.blockSize % size == 0 && c.blockSize <= c.capacity
    requires FullBatch(c, batch, size) && WholeBatches(c, s.pool, size)
    ensures var s' := AfterRequest(c, s, batch);
            var all := s.pool + batch;
            && WholeBatches(c, s'.pool, size)
            && s'.accepted == s.accepted + batch && Admitted(c.admit, batch) == batch
            && if |all| < c.blockSize then
                 s'.pool == all && s'.rounds == s.rounds && s'.discarded == s.discarded
               else
                 && |all| == c.blockSize
                 && s'.pool == []
                 && s'.rounds == s.rounds + [Taken(all, c.blockSize, c.n)]
                 && |Taken(all, c.blockSize, c.n)| == c.blockSize - Lost(c.blockSize, c.n)
                 && |s'.discarded| == |s.discarded| + Lost(c.blockSize, c.n)
  {
    AllAdmitted(c.admit, batch);
    OneMoreBatch(|s.pool|, size, c.blockSize);
    DivModUnique(0, size, 0, 0);
    hide Taken, AfterRequest, Admitted, Lost;
    RequestEffect(c, s, batch);
    var all := s.pool + batch;
    if |all| == c.blockSize {
      TakenFromBlock(all, c.blockSize, c.n);
    }
  }

  ghost predicate RoundSizes(c: Config, rounds: seq<seq<Entry>>)
    requires c.n > 0
  {
    forall k :: 0 <= k < |rounds| ==> |rounds[k]| == c.blockSize - Lost(c.blockSize, c.n)
  }

  // The effect of one step of a run with full batches.
  ghost predicate FullEffect(c: Config, s: State, s': State, offered: seq<Entry>)
    requires c.n > 0
  {
    && |s.rounds| <= |s'.rounds| <= |s.rounds| + 1
    && |s'.discarded| == |s.discarded| + (if |s'.rounds| == |s.rounds| then 0 else Lost(c.blockSize, c.n))
    && (RoundSizes(c, s.rounds) ==> RoundSizes(c, s'.rounds))
    && (c.blockSize <= c.capacity ==> s'.accepted == s.accepted + offered)
  }

  lemma FullRequest(c: Config, s: State, batch: seq<Entry>, size: nat)
    requires ValidConfig(c) && Shape(c, s) && s.assigner.Intake?
    requires size > 0 && c.blockSize % size == 0
    requires FullBatch(c, batch, size) && WholeBatches(c, s.pool, size)
    ensures var s' := AfterRequest(c, s, batch);
            WholeBatches(c, s'.pool, size) && FullEffect(c, s, s', Admitted(c.admit, batch))
  {
    if c.blockSize <= c.capacity {
      FullRequestEffect(c, s, batch, size);
    } else {
      TooSmallForABlock(c, s, batch);
    }
    hide AfterRequest, Admitted, Taken, Lost, FullBatch;
  }

  lemma FullStep(c: Config, s: State, step: Step, size: nat)
    requires ValidConfig(c) && Shape(c, s) && Enabled(c, s, step)
    requires size > 0 && c.blockSize % size == 0 && WholeBatches(c, s.pool, size)
    requires step.Request? ==> FullBatch(c, step.batch, size)
    ensures var s' := Apply(c, s, step);
            WholeBatches(c, s'.pool, size) && FullEffect(c, s, s', OfferedBy(c, step))
  {
    hide Lost, FullBatch, WholeBatches, RoundSizes, AfterRequest, Admitted;
    if step.Request? {
      FullRequest(c, s, step.batch, size);
    } else {
      SameHistory(c, s, step);
    }
  }

  lemma LostAddsUp(first: nat, rest: nat, lost: nat)
    requires first <= 1
    ensures (first + rest) * lost == (if first == 0 then 0 else lost) + rest * lost
  {
    MulAdd(first, rest, lost);
  }

  lemma {:induction false} FullBatchesFrom(c: Config, s: State, steps: seq<Step>, t: State, size: nat)
    requires ValidConfig(c) && RunsTo(c, s, steps, t) && FullBatches(c, steps, size)
    requires size > 0 && c.blockSize % size == 0
    requires WholeBatches(c, s.pool, size) && RoundSizes(c, s.rounds)
    ensures RoundSizes(c, t.rounds) && |s.rounds| <= |t.rounds|
    ensures |t.discarded| == |s.discarded| + (|t.rounds| - |s.rounds|) * Lost(c.blockSize, c.n)
    ensures c.blockSize <= c.capacity ==> t.accepted == s.accepted + Offered(c, steps)
    decreases |steps|
  {
    hide Lost, RoundSizes, WholeBatches, Apply, Enabled;
    if steps != [] {
      var s' := Apply(c, s, steps[0]);
      FullStep(c, s, steps[0], size);
      hide Admitted, Shape, FullBatch;
      FullBatchesFrom(c, s', steps[1..], t, size);
      assert OfferedBy(c, steps[0]) + Offered(c, steps[1..]) == Offered(c, steps);
      LostAddsUp(|s'.rounds| - |s.rounds|, |t.rounds| - |s'.rounds|, Lost(c.blockSize, c.n));
    }
  }

  // With full batches and a block size that is a whole number of them, each
  // dispatch throws away exactly the remainder of the block size modulo the
  // shard count. So nothing is ever lost exactly when nothing is dispatched,
  // the shard count divides the block size, or there are more shards than
  // that. Nonces play no part in it.
  lemma {:induction false} FullBatchesDiscard(c: Config, steps: seq<Step>, t: State, size: nat)
    requires ValidConfig(c) && RunsTo(c, Init(c), steps, t) && FullBatches(c, steps, size)
    requires size > 0 && c.blockSize % size == 0
    ensures |t.discarded| == |t.rounds| * Lost(c.blockSize, c.n)
    ensures t.discarded == [] <==> t.rounds == [] || c.blockSize % c.n == 0 || c.blockSize < c.n
    ensures forall k :: 0 <= k < |t.rounds| ==> |t.rounds[k]| == c.blockSize - Lost(c.blockSize, c.n)
    ensures c.blockSize <= c.capacity ==> t.accepted == Offered(c, steps)
  {
    DivModUnique(0, size, 0, 0);
    FullBatchesFrom(c, Init(c), steps, t, size);
    var lost, dispatches := Lost(c.blockSize, c.n), |t.rounds|;
    if dispatches > 0 && lost > 0 {
      MulStep(0, dispatches, lost);
    }
  }

  // The receiver's default settings lose 16 of the first 256 transactions.
  lemma {:induction false} DefaultsDiscard(c: Config, batch: seq<Entry>)
    requires ValidConfig(c) && c.n == 48 && c.blockSize == 256 && c.capacity == MEMPOOL_MAX_SIZE
    requires FullBatch(c, batch, 256)
    ensures var t := AfterRequest(c, Init(c), batch);
            RunsTo(c, Init(c), [Request(batch)], t) && |t.discarded| == 16
  {
    var s, step := Init(c), Request(batch);
    FullRequestEffect(c, s, batch, 256);
    hide AfterRequest, FullBatch, Taken;
    var t := AfterRequest(c, s, batch);
    assert Apply(c, s, step) == t;
    assert RunsTo(c, t, [], t);
    assert [step][1..] == [];
  }

  // ------------------------------------------------------------------
  // Even batches.

  // A tile of the generator's range. A tile that wraps around 2^64 must start
  // where that does not spoil its evenness.
  ghost predicate EvenTile(c: Config, batch: seq<Entry>, size: nat) {
    && c.n > 0
    && exists start: u64 :: Wrapping(batch, start) && EvenStart(c.n, size, start)
  }

  // Every full tile of a range whose base suits the shard count is one.
  lemma RangeGivesEvenTiles(c: Config, es: seq<Entry>, base: int, b: nat, size: nat, total: nat)
    requires c.n > 0 && size > 0 && size % c.n == 0 && ValidRange(base, total)
    requires EvenRange(c.n, base, size, total) && FullTile(es, base, b, size, total)
    ensures EvenTile(c, es, size)
  {
    TilesAreEven(c.n, base, size, total);
    TileFollows(es, base, b, size, total);
    hide TileStart, EvenStart, EvenRange;
    assert EvenStart(c.n, size, Nonce(base, TileStart(b, size)));
  }

  ghost predicate EvenTiles(c: Config, steps: seq<Step>, size: nat) {
    forall j :: 0 <= j < |steps| && steps[j].Request? ==> EvenTile(c, steps[j].batch, size)
  }

  ghost predicate EvenRounds(c: Config, rounds: seq<seq<Entry>>)
    requires c.n > 0
  {
    forall k :: 0 <= k < |rounds| ==> Even(c.n, rounds[k])
  }

  // In a mempool that can hold a block, the pool is even between requests.
  ghost predicate EvenPool(c: Config, pool: seq<Entry>)
    requires c.n > 0
  {
    c.blockSize <= c.capacity ==> Even(c.n, pool)
  }

  lemma SizeIsMultiple(size: nat, n: nat, blockSize: nat)
    requires n > 0 && size > 0 && size % n == 0 && blockSize % size == 0
    ensures blockSize % n == 0
  {
    DivMod(size, n);
    DivMod(blockSize, size);
    var a, b := size / n, blockSize / size;
    assert blockSize == b * (a * n) == (b * a) * n;
    DivModUnique(blockSize, n, b * a, 0);
  }

  lemma SizeAtMost(size: nat, blockSize: nat)
    requires size > 0 && blockSize > 0 && blockSize % size == 0
    ensures size <= blockSize
  {
    if blockSize < size {
      DivModUnique(blockSize, size, 0, blockSize);
    }
  }

  lemma EmptyIsEven(n: nat)
    requires n > 0
    ensures Even(n, [])
  {
    DivModUnique(0, n, 0, 0);
    FullBatchIsEven(n, [], 0);
  }

  lemma EvenRequest(c: Config, s: State, batch: seq<Entry>, size: nat)
    requires ValidConfig(c) && Shape(c, s) && s.assigner.Intake?
    requires size > 0 && size % c.n == 0 && c.blockSize % size == 0 && c.blockSize <= c.capacity
    requires FullBatch(c, batch, size) && EvenTile(c, batch, size) && WholeBatches(c, s.pool, size)
    requires Even(c.n, s.pool) && EvenRounds(c, s.rounds)
    ensures var s' := AfterRequest(c, s, batch);
            Even(c.n, s'.pool) && EvenRounds(c, s'.rounds)
  {
    hide Even, EvenTile, FullBatch, AfterRequest, Admitted, WholeBatches, Taken, Lost;
    TileIsEven(c, batch, size);
    EvenAppend(c.n, s.pool, batch);
    EmptyIsEven(c.n);
    SizeIsMultiple(size, c.n, c.blockSize);
    FullRequestEffect(c, s, batch, size);
    var all := s.pool + batch;
    if |all| >= c.blockSize {
      KeepsWholePool(all, c.blockSize, c.n);
    }
  }

  lemma TileIsEven(c: Config, batch: seq<Entry>, size: nat)
    requires FullBatch(c, batch, size) && EvenTile(c, batch, size)
    requires size > 0 && size % c.n == 0 && c.blockSize > 0 && c.blockSize % size == 0
    ensures Even(c.n, batch)
  {
    var start: u64 :| Wrapping(batch, start) && EvenStart(c.n, size, start);
    SizeAtMost(size, c.blockSize);
    BatchIsEven(c.n, batch, start);
  }

  lemma EvenStep(c: Config, s: State, step: Step, size: nat)
    requires ValidConfig(c) && Shape(c, s) && Enabled(c, s, step)
    requires size > 0 && size % c.n == 0 && c.blockSize % size == 0 && WholeBatches(c, s.pool, size)
    requires step.Request? ==> FullBatch(c, step.batch, size) && EvenTile(c, step.batch, size)
    requires EvenPool(c, s.pool) && EvenRounds(c, s.rounds)
    ensures var s' := Apply(c, s, step);
            EvenPool(c, s'.pool) && EvenRounds(c, s'.rounds)
  {
    if !step.Request? {
      SameHistory(c, s, step);
      hide Even, EvenRounds, Apply;
    } else if c.blockSize <= c.capacity {
      EvenRequest(c, s, step.batch, size);
      hide Even, EvenRounds, AfterRequest;
    } else {
      WholeBatchesTooSmall(c, s.pool, size);
      TooSmallForABlock(c, s, step.batch);
      hide Even, EvenRounds, AfterRequest, WholeBatches;
    }
  }

  lemma WholeBatchesTooSmall(c: Config, pool: seq<Entry>, size: nat)
    requires size > 0 && WholeBatches(c, pool, size) && c.capacity < c.blockSize
    ensures |pool| <= c.capacity
  {
  }

  lemma {:induction false} EvenTilesFrom(c: Config, s: State, steps: seq<Step>, t: State, size: nat)
    requires ValidConfig(c) && RunsTo(c, s, steps, t) && FullBatches(c, steps, size) && EvenTiles(c, steps, size)
    requires size > 0 && size % c.n == 0 && c.blockSize % size == 0 && WholeBatches(c, s.pool, size)
    requires EvenPool(c, s.pool) && EvenRounds(c, s.rounds)
    ensures EvenRounds(c, t.rounds)
    decreases |steps|
  {
    hide EvenTile, FullBatch, WholeBatches, EvenPool, EvenRounds, Apply, Enabled;
    if steps != [] {
      FullStep(c, s, steps[0], size);
      EvenStep(c, s, steps[0], size);
      EvenTilesFrom(c, Apply(c, s, steps[0]), steps[1..], t, size);
    }
  }

  // If, moreover, the shard count divides the batch size and the batches are
  // tiles of the generator's range, every shard gets the same share of every
  // round, and the rounds have exactly the block size.
  lemma {:induction false} FullBatchesShareEvenly(c: Config, steps: seq<Step>, t: State, size: nat)
    requires ValidConfig(c) && RunsTo(c, Init(c), steps, t) && FullBatches(c, steps, size) && EvenTiles(c, steps, size)
    requires size > 0 && size % c.n == 0 && c.blockSize % size == 0
    ensures t.discarded == []
    ensures forall k, i: nat :: 0 <= k < |t.rounds| && i < c.n ==>
              |ForShard(c.n, t.rounds[k], i)| * c.n == c.blockSize
  {
    EmptyIsEven(c.n);
    DivModUnique(0, size, 0, 0);
    SizeIsMultiple(size, c.n, c.blockSize);
    hide RunsTo, FullBatches, EvenTiles;
    FullBatchesDiscard(c, steps, t, size);
    EvenTilesFrom(c, Init(c), steps, t, size);
    forall k, i: nat | 0 <= k < |t.rounds| && i < c.n
      ensures |ForShard(c.n, t.rounds[k], i)| * c.n == c.blockSize
    {
      assert Even(c.n, t.rounds[k]);
    }
  }
}
