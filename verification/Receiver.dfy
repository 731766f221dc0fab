/**
 The receiver: batches of decoded transactions go into the mempool, and a full
 mempool triggers an election and a dispatch.
 */
module Receiver {
  import opened Wire
  import opened Routing
  import opened Mempool
  import opened ShardAssigner
  import Election

  // ------------------------------------------------------------------
  // Decoded protobuf transactions. Byte fields have any length; an absent
  // field is empty.

  datatype PbTransaction = PbTransaction(
    nonce: u64, expiry: u32, source: seq<byte>, dest: seq<byte>,
    value: u64, fee: u32, signature: seq<byte>, publicKey: seq<byte>)

  // A field that is too short counts as all zeros.
  function FixedField(field: seq<byte>, n: nat): (f: seq<byte>)
    ensures |f| == n
  {
    if |field| >= n then field[..n] else Zeros(n)
  }

  // A signature that is too short is padded with zeros.
  function SignatureField(field: seq<byte>): (f: Signature) {
    if |field| >= 64 then field[..64] else field + Zeros(64 - |field|)
  }

  function FromPb(pt: PbTransaction): Entry {
    Entry(Transaction(pt.nonce, pt.expiry, FixedField(pt.source, 20), FixedField(pt.dest, 20),
                      pt.value, pt.fee, SignatureField(pt.signature)),
          FixedField(pt.publicKey, 32))
  }

  // How the generator fills a message in: an all-zero signature is left out.
  function ToPb(e: Entry): PbTransaction {
    var t := e.tx;
    PbTransaction(t.nonce, t.expiry, t.source, t.dest, t.value, t.fee,
                  if t.signature == Zeros(64) then [] else t.signature, e.pubkey)
  }

  // What the generator puts into a message the receiver takes out again, key
  // included.
  lemma PbRoundTrip(e: Entry)
    ensures FromPb(ToPb(e)) == e
  {
    var t := e.tx;
    assert t.source[..20] == t.source && t.dest[..20] == t.dest && e.pubkey[..32] == e.pubkey;
    if t.signature != Zeros(64) {
      assert t.signature[..64] == t.signature;
    } else {
      assert [] + Zeros(64) == Zeros(64);
    }
  }

  // Byte j of a field of n bytes: that of the message, or zero if the message
  // has too few bytes for the field.
  function FieldByte(field: seq<byte>, n: nat, j: nat): byte
    requires j < n
  {
    if |field| < n then 0 else field[j]
  }

  // What the receiver takes from a message of any shape: addresses and keys
  // that are too short count as zeros, signatures are padded with zeros.
  lemma DecodedFields(pt: PbTransaction)
    ensures var e := FromPb(pt);
            && e.tx.nonce == pt.nonce && e.tx.expiry == pt.expiry && e.tx.value == pt.value && e.tx.fee == pt.fee
            && (forall j :: 0 <= j < 20 ==> e.tx.source[j] == FieldByte(pt.source, 20, j))
            && (forall j :: 0 <= j < 20 ==> e.tx.dest[j] == FieldByte(pt.dest, 20, j))
            && (forall j :: 0 <= j < 32 ==> e.pubkey[j] == FieldByte(pt.publicKey, 32, j))
            && (forall j :: 0 <= j < 64 ==> e.tx.signature[j] == if j < |pt.signature| then pt.signature[j] else 0)
  {
  }

  function DecodeAll(batch: seq<PbTransaction>): (es: seq<Entry>)
    ensures |es| == |batch|
    ensures forall j :: 0 <= j < |batch| ==> es[j] == FromPb(batch[j])
  {
    seq(|batch|, j requires 0 <= j < |batch| => FromPb(batch[j]))
  }

  // ------------------------------------------------------------------
  // Intake.

  // One batch taken into the pool: entries that are not admitted are rejected,
  // entries that do not fit are dropped.
  function IntakeBatch(admit: Entry -> bool, capacity: nat, pool: seq<Entry>, batch: seq<Entry>): (after: seq<Entry>)
    ensures pool <= after
    ensures |after| <= |pool| + |batch|
    ensures |pool| <= capacity ==> |after| <= capacity
  {
    if batch == [] then pool
    else
      var e := batch[|batch| - 1];
      var p := IntakeBatch(admit, capacity, pool, batch[..|batch| - 1]);
      if admit(e) && |p| < capacity then p + [e] else p
  }

  function Admitted(admit: Entry -> bool, batch: seq<Entry>): (es: seq<Entry>)
    ensures |es| <= |batch|
  {
    if batch == [] then []
    else
      var e := batch[|batch| - 1];
      Admitted(admit, batch[..|batch| - 1]) + if admit(e) then [e] else []
  }

  // Admission looks at each entry by itself.
  lemma {:induction false} AdmittedAppend(admit: Entry -> bool, a: seq<Entry>, b: seq<Entry>)
    ensures Admitted(admit, a + b) == Admitted(admit, a) + Admitted(admit, b)
  {
    if b == [] {
      assert a + b == a;
    } else {
      var b' := b[..|b| - 1];
      assert (a + b)[..|a + b| - 1] == a + b';
      AdmittedAppend(admit, a, b');
    }
  }

  lemma {:induction false} AdmittedSame(f: Entry -> bool, g: Entry -> bool, es: seq<Entry>)
    requires forall j :: 0 <= j < |es| ==> f(es[j]) == g(es[j])
    ensures Admitted(f, es) == Admitted(g, es)
  {
    if es != [] {
      AdmittedSame(f, g, es[..|es| - 1]);
    }
  }

  lemma AdmittedOne(admit: Entry -> bool, e: Entry)
    ensures Admitted(admit, [e]) == if admit(e) then [e] else []
  {
    assert [e][..0] == [];
  }

  // What fits of a list into a given room.
  function Fitting(es: seq<Entry>, room: nat): seq<Entry> {
    if |es| <= room then es else es[..room]
  }

  // Intake fills the pool with the first admitted entries and drops the rest.
  lemma {:induction false} IntakeFills(admit: Entry -> bool, capacity: nat, pool: seq<Entry>, batch: seq<Entry>)
    requires |pool| <= capacity
    ensures IntakeBatch(admit, capacity, pool, batch) == pool + Fitting(Admitted(admit, batch), capacity - |pool|)
  {
    if batch != [] {
      IntakeFills(admit, capacity, pool, batch[..|batch| - 1]);
    }
  }

  lemma IntakeNext(admit: Entry -> bool, capacity: nat, pool: seq<Entry>, batch: seq<Entry>, i: nat)
    requires i < |batch|
    ensures var p := IntakeBatch(admit, capacity, pool, batch[..i]);
            IntakeBatch(admit, capacity, pool, batch[..i + 1])
            == if admit(batch[i]) && |p| < capacity then p + [batch[i]] else p
    ensures Admitted(admit, batch[..i + 1]) == Admitted(admit, batch[..i]) + if admit(batch[i]) then [batch[i]] else []
  {
    assert batch[..i + 1][..i] == batch[..i];
  }

  // The first i entries of a batch have been taken in, refused or dropped.
  ghost predicate TakenIn(admit: Entry -> bool, capacity: nat, before: seq<Entry>, es: seq<Entry>, i: nat,
                          pool: seq<Entry>, accepted: nat, rejected: nat)
    requires i <= |es|
  {
    && pool == IntakeBatch(admit, capacity, before, es[..i])
    && accepted == |pool| - |before|
    && rejected == i - |Admitted(admit, es[..i])|
  }

  lemma NothingTakenIn(admit: Entry -> bool, capacity: nat, before: seq<Entry>, es: seq<Entry>)
    ensures TakenIn(admit, capacity, before, es, 0, before, 0, 0)
  {
  }

  lemma OneMoreTakenIn(admit: Entry -> bool, capacity: nat, before: seq<Entry>, es: seq<Entry>, i: nat,
                       pool: seq<Entry>, accepted: nat, rejected: nat)
    requires i < |es| && TakenIn(admit, capacity, before, es, i, pool, accepted, rejected)
    ensures var takes := admit(es[i]) && |pool| < capacity;
            TakenIn(admit, capacity, before, es, i + 1, if takes then pool + [es[i]] else pool,
                    accepted + (if takes then 1 else 0), rejected + if admit(es[i]) then 0 else 1)
  {
    IntakeNext(admit, capacity, before, es, i);
    hide IntakeBatch, Admitted;
  }

  lemma AllTakenIn(admit: Entry -> bool, capacity: nat, before: seq<Entry>, es: seq<Entry>,
                   pool: seq<Entry>, accepted: nat, rejected: nat)
    requires TakenIn(admit, capacity, before, es, |es|, pool, accepted, rejected)
    ensures pool == IntakeBatch(admit, capacity, before, es)
    ensures accepted == |pool| - |before| && rejected == |es| - |Admitted(admit, es)|
  {
    assert es[..|es|] == es;
    hide IntakeBatch, Admitted;
  }

  // With room for the whole batch, no entry is dropped.
  lemma {:induction false} IntakeTakesAll(admit: Entry -> bool, capacity: nat, pool: seq<Entry>, batch: seq<Entry>)
    requires |pool| + |batch| <= capacity
    ensures IntakeBatch(admit, capacity, pool, batch) == pool + Admitted(admit, batch)
  {
    if batch != [] {
      IntakeTakesAll(admit, capacity, pool, batch[..|batch| - 1]);
    }
  }

  lemma {:induction false} AllAdmitted(admit: Entry -> bool, batch: seq<Entry>)
    requires forall j :: 0 <= j < |batch| ==> admit(batch[j])
    ensures Admitted(admit, batch) == batch
  {
    if batch != [] {
      AllAdmitted(admit, batch[..|batch| - 1]);
    }
  }

  // ------------------------------------------------------------------
  // The process.

  // Every node has a stake in the range setup_nodes draws from.
  ghost predicate SetUp(nodes: seq<Election.Node>) {
    forall i :: 0 <= i < |nodes| ==> 100 <= nodes[i].stake <= 999
  }

  method SetupNodes(numShards: nat, randoms: seq<nat>) returns (nodes: seq<Election.Node>)
    requires numShards <= Election.MAX_NODES && |randoms| >= numShards
    ensures |nodes| == numShards && Election.DistinctNodes(nodes) && SetUp(nodes)
    ensures forall i :: 0 <= i < numShards ==>
              fresh(nodes[i]) && nodes[i].id == i && nodes[i].stake == Election.SetupStake(randoms[i])
  {
    nodes := [];
    for i := 0 to numShards
      invariant |nodes| == i && Election.DistinctNodes(nodes) && SetUp(nodes)
      invariant forall j :: 0 <= j < i ==>
                  fresh(nodes[j]) && nodes[j].id == j && nodes[j].stake == Election.SetupStake(randoms[j])
    {
      var node := new Election.Node(i, Election.SetupStake(randoms[i]));
      nodes := nodes + [node];
    }
  }

  // After an election of all nodes every winner holds its shard.
  lemma ElectionIsSound(nodes: seq<Election.Node>, randoms: seq<nat>, ids: seq<int>, roles: seq<Election.Role>,
                        winners: seq<Election.Node>)
    requires SetUp(nodes) && 0 < |nodes| <= Election.MAX_NODES
    requires |randoms| == |ids| == |roles| == |winners| == |nodes|
    requires Election.Elected(nodes, randoms, ids, roles, winners)
    ensures Visits(|nodes|, Election.Draws(Election.Stakes(nodes), Election.NoneUsed(|nodes|), randoms))
    ensures forall s :: 0 <= s < |winners| ==> winners[s].shardId == s && winners[s].role == Election.Winner
  {
    hide Election.Draws, Election.IdsAfter, Election.RolesAfter, Election.ShardIds, Election.Roles, Visits;
    hide Election.NoOverflow;
    var stakes := Election.Stakes(nodes);
    Election.SetupIsSound(stakes);
    Election.SoundElection(stakes, randoms, ids, roles);
    var ws := Election.Draws(stakes, Election.NoneUsed(|nodes|), randoms);
    forall s | 0 <= s < |winners|
      ensures winners[s].shardId == s && winners[s].role == Election.Winner
    {
      assert Election.ShardIds(nodes)[ws[s]] == s && Election.Roles(nodes)[ws[s]] == Election.Winner;
    }
  }

  method ResetNodes(nodes: seq<Election.Node>)
    modifies nodes
    ensures Election.ShardIds(nodes) == Election.NoShards(|nodes|)
    ensures Election.Roles(nodes) == Election.AllValidators(|nodes|)
    ensures forall j :: 0 <= j < |nodes| ==> nodes[j].activity == Election.NodeIdle
  {
    for i := 0 to |nodes|
      invariant forall j :: 0 <= j < i ==>
                  nodes[j].shardId == -1 && nodes[j].role == Election.Validator && nodes[j].activity == Election.NodeIdle
    {
      nodes[i].shardId := -1;
      nodes[i].role := Election.Validator;
      nodes[i].activity := Election.NodeIdle;
    }
  }

  class Process {
    const pool: Pool
    const assigner: Assigner
    const nodes: seq<Election.Node>
    const blockSize: u32
    const verify: bool
    const check: Entry -> bool

    constructor (pool: Pool, assigner: Assigner, nodes: seq<Election.Node>, blockSize: u32,
                 verify: bool, check: Entry -> bool)
      ensures this.pool == pool && this.assigner == assigner && this.nodes == nodes
      ensures this.blockSize == blockSize && this.verify == verify && this.check == check
    {
      this.pool := pool;
      this.assigner := assigner;
      this.nodes := nodes;
      this.blockSize := blockSize;
      this.verify := verify;
      this.check := check;
    }

    // Without --verify every transaction is admitted.
    function Admit(): Entry -> bool {
      e => !verify || check(e)
    }

    // What intake makes of a batch, by the receiver's two settings.
    ghost predicate Outcome(before: seq<Entry>, after: seq<Entry>, es: seq<Entry>, rejected: int)
      requires |before| <= pool.capacity
    {
      && (!verify ==> rejected == 0 && after == before + Fitting(es, pool.capacity - |before|))
      && (verify ==>
            && rejected == |es| - |Admitted(check, es)|
            && after == before + Fitting(Admitted(check, es), pool.capacity - |before|))
    }

    lemma IntakeOutcome(before: seq<Entry>, es: seq<Entry>)
      requires |before| <= pool.capacity
      ensures Outcome(before, IntakeBatch(Admit(), pool.capacity, before, es), es, |es| - |Admitted(Admit(), es)|)
    {
      IntakeFills(Admit(), pool.capacity, before, es);
      if verify {
        AdmittedSame(Admit(), check, es);
      } else {
        AllAdmitted(Admit(), es);
      }
    }

    ghost predicate Valid()
      reads this, pool, assigner
    {
      && pool.Valid() && assigner.Valid()
      && |nodes| == assigner.numShards
      && Election.DistinctNodes(nodes) && SetUp(nodes)
      && blockSize > 0
    }

    // One transaction of a batch: taken in, refused, or dropped.
    method IntakeOne(e: Entry) returns (taken: nat, refused: nat)
      requires Valid()
      modifies pool`count, pool.txs, pool.pubkeys
      ensures Valid()
      ensures var p := old(pool.Contents());
              && pool.Contents() == (if Admit()(e) && |p| < pool.capacity then p + [e] else p)
              && taken == |pool.Contents()| - |p|
              && refused == if Admit()(e) then 0 else 1
    {
      if verify && !check(e) {
        return 0, 1;
      }
      var ok := pool.Add(e.tx, Some(e.pubkey));
      taken, refused := if ok then 1 else 0, 0;
    }

    // Without verification nothing is refused, and a batch that fits is taken
    // in whole; with it, what fails the check is refused, and what passes is
    // taken in, in order, as far as there is room.
    method Intake(batch: seq<PbTransaction>) returns (accepted: nat, rejected: nat)
      requires Valid()
      modifies pool`count, pool.txs, pool.pubkeys
      ensures Valid()
      ensures Outcome(old(pool.Contents()), pool.Contents(), DecodeAll(batch), rejected)
      ensures var es := DecodeAll(batch);
              && pool.Contents() == IntakeBatch(Admit(), pool.capacity, old(pool.Contents()), es)
              && accepted == |pool.Contents()| - |old(pool.Contents())|
              && rejected == |batch| - |Admitted(Admit(), es)|
    {
      hide TakenIn, FromPb, IntakeBatch, Admitted, Outcome;
      accepted, rejected := 0, 0;
      ghost var admit, before, es := Admit(), pool.Contents(), DecodeAll(batch);
      NothingTakenIn(admit, pool.capacity, before, es);
      for i := 0 to |batch|
        invariant Valid()
        invariant TakenIn(admit, pool.capacity, before, es, i, pool.Contents(), accepted, rejected)
      {
        OneMoreTakenIn(admit, pool.capacity, before, es, i, pool.Contents(), accepted, rejected);
        var taken, refused := IntakeOne(FromPb(batch[i]));
        accepted, rejected := accepted + taken, rejected + refused;
      }
      AllTakenIn(admit, pool.capacity, before, es, pool.Contents(), accepted, rejected);
      IntakeOutcome(before, es);
    }

    // Reset every node, then draw a winner for every shard: the winners are
    // all the nodes in some order, and each still holds its shard.
    method RunElection(randoms: seq<nat>) returns (winners: Option<array<Election.Node>>)
      requires Valid() && |randoms| >= |nodes|
      modifies nodes
      ensures winners.Some?
      ensures fresh(winners.value) && winners.value.Length == |nodes|
      ensures Election.Elected(nodes, randoms[..|nodes|], Election.NoShards(|nodes|), Election.AllValidators(|nodes|),
                               winners.value[..])
      ensures Visits(|nodes|, Election.Draws(Election.Stakes(nodes), Election.NoneUsed(|nodes|), randoms[..|nodes|]))
      ensures forall s :: 0 <= s < |nodes| ==>
                winners.value[s].shardId == s && winners.value[s].role == Election.Winner
    {
      hide Election.Elected, Election.Draws, Election.NoShards, Election.AllValidators, Visits;
      ResetNodes(nodes);
      hide Election.ShardIds, Election.Roles;
      winners := Election.ElectWinners(nodes, |nodes|, randoms);
      ElectionIsSound(nodes, randoms[..|nodes|], Election.NoShards(|nodes|), Election.AllValidators(|nodes|),
                      winners.value[..]);
    }

    // The assigner has sent one round holding es, on top of what its channels
    // held before.
    ghost predicate Sent(queues: seq<seq<Msg>>, done: seq<u32>, round: u32, es: seq<Entry>)
      requires assigner.Valid()
      reads this, assigner, assigner.push, assigner.doneSock
    {
      && assigner.roundNumber == Wrap32(round + 1)
      && |queues| == assigner.numShards
      && (forall i :: 0 <= i < assigner.numShards ==>
            assigner.Queues()[i] == queues[i] + Segment(assigner.numShards, assigner.roundNumber, es, i))
      && assigner.doneSock.queue == done + [assigner.roundNumber]
    }

    method ElectAndDispatch(randoms: seq<nat>)
      requires Valid() && |randoms| >= |nodes|
      modifies pool`count, nodes
      modifies assigner`roundNumber, assigner.push, assigner.doneSock, assigner.assignedCounts
      ensures Valid() && pool.Contents() == []
      ensures Sent(old(assigner.Queues()), old(assigner.doneSock.queue), old(assigner.roundNumber),
                   Taken(old(pool.Contents()), blockSize, assigner.numShards))
    {
      hide ForShard, Taken, Segment;
      hide Election.Elected, Election.Draws, Election.Stakes;
      var winners := RunElection(randoms);
      assert assigner.Queues() == old(assigner.Queues());
      assigner.Dispatch(pool, blockSize);
    }

    // One request: intake, then an election and a dispatch if the pool has
    // reached the block size. The reply carries the two counts.
    method HandleBatch(batch: seq<PbTransaction>, randoms: seq<nat>) returns (accepted: nat, rejected: nat)
      requires Valid() && |randoms| >= |nodes|
      modifies pool`count, pool.txs, pool.pubkeys, nodes
      modifies assigner`roundNumber, assigner.push, assigner.doneSock, assigner.assignedCounts
      ensures Valid()
      ensures var before := old(pool.Contents());
              var after := IntakeBatch(Admit(), pool.capacity, before, DecodeAll(batch));
              && Outcome(before, after, DecodeAll(batch), rejected)
              && accepted == |after| - |before|
              && rejected == |batch| - |Admitted(Admit(), DecodeAll(batch))|
              && if |after| >= blockSize then
                   && pool.Contents() == []
                   && Sent(old(assigner.Queues()), old(assigner.doneSock.queue), old(assigner.roundNumber),
                           Taken(after, blockSize, assigner.numShards))
                 else
                   && pool.Contents() == after
                   && assigner.roundNumber == old(assigner.roundNumber)
                   && assigner.Queues() == old(assigner.Queues())
                   && assigner.doneSock.queue == old(assigner.doneSock.queue)
    {
      hide ForShard, IntakeBatch, Taken, Sent, Outcome, Admitted;
      accepted, rejected := Intake(batch);
      assert assigner.Queues() == old(assigner.Queues());
      var size := pool.Size();
      if size >= blockSize {
        ElectAndDispatch(randoms);
      }
    }
  }
}
