/**
 What the roots commit to. A shard's root chains its transaction hashes; a
 block's root hashes the shards' roots one after the other. Nothing is assumed
 about the hash function: two different contents with one root exhibit either
 a collision between hash inputs computed for them, or a hash input computed
 for one of them that hashes to 32 zero bytes.
 */
module Commitment {
  import opened Wire
  import opened Routing
  import opened ShardWorker
  import opened Protocol
  import opened ProtocolInvariant
  import opened ProtocolSafety

  // The inputs hashed to compute a chained root.
  function ChainInputs(sha: seq<byte> -> Bytes32, hashes: seq<Hash28>): set<seq<byte>> {
    if hashes == [] then {}
    else
      var init := hashes[..|hashes| - 1];
      ChainInputs(sha, init) + {ChainRoot(sha, init) + hashes[|hashes| - 1]}
  }

  lemma {:induction false} ChainInputsAre60Bytes(sha: seq<byte> -> Bytes32, hashes: seq<Hash28>)
    ensures forall x :: x in ChainInputs(sha, hashes) ==> |x| == 60
  {
    if hashes != [] {
      ChainInputsAre60Bytes(sha, hashes[..|hashes| - 1]);
    }
  }

  ghost predicate Collide(sha: seq<byte> -> Bytes32, x: seq<byte>, y: seq<byte>) {
    x != y && sha(x) == sha(y)
  }

  // Some input from a and some input from b collide.
  ghost predicate Collision(sha: seq<byte> -> Bytes32, a: set<seq<byte>>, b: set<seq<byte>>) {
    exists x, y :: x in a && y in b && Collide(sha, x, y)
  }

  // Some 60-byte input from a hashes to zeros.
  ghost predicate ZeroPreimage(sha: seq<byte> -> Bytes32, a: set<seq<byte>>) {
    exists x :: x in a && |x| == 60 && sha(x) == ZERO32
  }

  ghost predicate Broken(sha: seq<byte> -> Bytes32, a: set<seq<byte>>, b: set<seq<byte>>) {
    Collision(sha, a, b) || ZeroPreimage(sha, a) || ZeroPreimage(sha, b)
  }

  lemma BrokenMonotone(sha: seq<byte> -> Bytes32, a: set<seq<byte>>, b: set<seq<byte>>, a': set<seq<byte>>, b': set<seq<byte>>)
    requires Broken(sha, a, b) && a <= a' && b <= b'
    ensures Broken(sha, a', b')
  {
  }

  lemma NonEmptyChain(sha: seq<byte> -> Bytes32, hashes: seq<Hash28>)
    requires hashes != [] && ChainRoot(sha, hashes) == ZERO32
    ensures ZeroPreimage(sha, ChainInputs(sha, hashes))
  {
    var x := ChainRoot(sha, hashes[..|hashes| - 1]) + hashes[|hashes| - 1];
    assert x in ChainInputs(sha, hashes);
  }

  // A shard root binds the list of transaction hashes, order and length
  // included.
  lemma {:induction false} ChainBinds(sha: seq<byte> -> Bytes32, l: seq<Hash28>, m: seq<Hash28>)
    requires ChainRoot(sha, l) == ChainRoot(sha, m) && l != m
    ensures Broken(sha, ChainInputs(sha, l), ChainInputs(sha, m))
    decreases |l|
  {
    if l == [] {
      NonEmptyChain(sha, m);
    } else if m == [] {
      NonEmptyChain(sha, l);
    } else {
      var l', m' := l[..|l| - 1], m[..|m| - 1];
      var x, y := ChainRoot(sha, l') + l[|l| - 1], ChainRoot(sha, m') + m[|m| - 1];
      assert x in ChainInputs(sha, l) && y in ChainInputs(sha, m);
      if x == y {
        assert ChainRoot(sha, l') == x[..32] == ChainRoot(sha, m');
        assert l[|l| - 1] == x[32..] == m[|m| - 1];
        assert l == l' + [l[|l| - 1]] && m == m' + [m[|m| - 1]];
        ChainBinds(sha, l', m');
        BrokenMonotone(sha, ChainInputs(sha, l'), ChainInputs(sha, m'), ChainInputs(sha, l), ChainInputs(sha, m));
      } else {
        assert Collide(sha, x, y);
      }
    }
  }

  // ------------------------------------------------------------------
  // Blocks.

  // The shard roots of some lists of transaction hashes, one after the other.
  function RootsOf(sha: seq<byte> -> Bytes32, lists: seq<seq<Hash28>>): (r: seq<byte>)
    ensures |r| == 32 * |lists|
  {
    if lists == [] then [] else RootsOf(sha, lists[..|lists| - 1]) + ChainRoot(sha, lists[|lists| - 1])
  }

  function AllChainInputs(sha: seq<byte> -> Bytes32, lists: seq<seq<Hash28>>): set<seq<byte>> {
    if lists == [] then {}
    else AllChainInputs(sha, lists[..|lists| - 1]) + ChainInputs(sha, lists[|lists| - 1])
  }

  // The inputs hashed to compute a block root, shard roots included.
  function BlockInputs(sha: seq<byte> -> Bytes32, lists: seq<seq<Hash28>>): set<seq<byte>> {
    AllChainInputs(sha, lists) + {RootsOf(sha, lists)}
  }

  lemma {:induction false} RootsBind(sha: seq<byte> -> Bytes32, l: seq<seq<Hash28>>, m: seq<seq<Hash28>>)
    requires |l| == |m| && RootsOf(sha, l) == RootsOf(sha, m) && l != m
    ensures Broken(sha, AllChainInputs(sha, l), AllChainInputs(sha, m))
    decreases |l|
  {
    assert l != [];
    var n := |l| - 1;
    var l', m' := l[..n], m[..n];
    var r := RootsOf(sha, l);
    assert RootsOf(sha, l') == r[..32 * n] == RootsOf(sha, m');
    assert ChainRoot(sha, l[n]) == r[32 * n..] == ChainRoot(sha, m[n]);
    if l[n] != m[n] {
      ChainBinds(sha, l[n], m[n]);
      BrokenMonotone(sha, ChainInputs(sha, l[n]), ChainInputs(sha, m[n]), AllChainInputs(sha, l), AllChainInputs(sha, m));
    } else {
      assert l == l' + [l[n]] && m == m' + [m[n]];
      RootsBind(sha, l', m');
      BrokenMonotone(sha, AllChainInputs(sha, l'), AllChainInputs(sha, m'), AllChainInputs(sha, l), AllChainInputs(sha, m));
    }
  }

  // For one shard count, a block root binds every shard's list, shard by shard
  // in the stored order.
  lemma {:induction false} BlockRootBinds(sha: seq<byte> -> Bytes32, l: seq<seq<Hash28>>, m: seq<seq<Hash28>>)
    requires |l| == |m| && sha(RootsOf(sha, l)) == sha(RootsOf(sha, m)) && l != m
    ensures Broken(sha, BlockInputs(sha, l), BlockInputs(sha, m))
  {
    var x, y := RootsOf(sha, l), RootsOf(sha, m);
    if x == y {
      RootsBind(sha, l, m);
      BrokenMonotone(sha, AllChainInputs(sha, l), AllChainInputs(sha, m), BlockInputs(sha, l), BlockInputs(sha, m));
    } else {
      assert x in BlockInputs(sha, l) && y in BlockInputs(sha, m);
      assert Collide(sha, x, y);
    }
  }

  // ------------------------------------------------------------------
  // Blocks the protocol has produced.

  // The transaction hashes behind block k, shard by shard in arrival order.
  function HashLists(c: Config, rounds: seq<seq<Entry>>, k: nat, order: seq<nat>): (ls: seq<seq<Hash28>>)
    requires c.n > 0 && k < |rounds|
    ensures |ls| == |order|
    ensures forall j :: 0 <= j < |order| ==> ls[j] == TxHashes(c.hashing, ForShard(c.n, rounds[k], order[j]))
  {
    seq(|order|, j requires 0 <= j < |order| => TxHashes(c.hashing, ForShard(c.n, rounds[k], order[j])))
  }

  lemma {:induction false} RootsInOrder(c: Config, rounds: seq<seq<Entry>>, k: nat, order: seq<nat>)
    requires c.n > 0 && k < |rounds|
    ensures Roots(InOrder(c, rounds, k, order)) == RootsOf(c.hashing.sha, HashLists(c, rounds, k, order))
  {
    hide ForShard, ChainRoot, TxHashes, FeeSum;
    if order != [] {
      var m := |order| - 1;
      RootsInOrder(c, rounds, k, order[..m]);
      assert InOrder(c, rounds, k, order)[..m] == InOrder(c, rounds, k, order[..m]);
      assert HashLists(c, rounds, k, order)[..m] == HashLists(c, rounds, k, order[..m]);
    }
  }

  // Two blocks with one root, from any two runs with the same hash functions
  // and shard count: their shards' transaction hashes agree list by list in
  // arrival order, or the hash function is broken on inputs the leaders and
  // workers hashed.
  lemma {:induction false} SameRootSameHashes(c: Config, s: State, k: nat, c': Config, s': State, k': nat)
    requires ValidConfig(c) && Reachable(c, s) && k < |s.blocks|
    requires ValidConfig(c') && Reachable(c', s') && k' < |s'.blocks|
    requires c'.n == c.n && c'.hashing == c.hashing
    requires s.blocks[k].merkleRoot == s'.blocks[k'].merkleRoot
    ensures k < |s.rounds| && k < |s.orders| && k' < |s'.rounds| && k' < |s'.orders|
    ensures var l := HashLists(c, s.rounds, k, s.orders[k]);
            var l' := HashLists(c', s'.rounds, k', s'.orders[k']);
            l == l' || Broken(c.hashing.sha, BlockInputs(c.hashing.sha, l), BlockInputs(c.hashing.sha, l'))
  {
    BlockRoot(c, s, k);
    BlockRoot(c', s', k');
    hide Reachable, InOrder, HashLists, Broken, BlockInputs, RootsOf, Roots;
    RootsInOrder(c, s.rounds, k, s.orders[k]);
    RootsInOrder(c', s'.rounds, k', s'.orders[k']);
    var l := HashLists(c, s.rounds, k, s.orders[k]);
    var l' := HashLists(c', s'.rounds, k', s'.orders[k']);
    if l != l' {
      BlockRootBinds(c.hashing.sha, l, l');
    }
  }

  // No two shards have the same list of transaction hashes in round k.
  ghost predicate SharesDiffer(c: Config, rounds: seq<seq<Entry>>, k: nat)
    requires c.n > 0 && k < |rounds|
  {
    forall i: nat, j: nat :: i < j < c.n ==>
      TxHashes(c.hashing, ForShard(c.n, rounds[k], i)) != TxHashes(c.hashing, ForShard(c.n, rounds[k], j))
  }

  // The combined root depends on the order in which summaries arrive: one
  // round assembled in two orders has one root only if the shards' lists agree
  // position by position, or the hash function is broken. If all the lists
  // differ, only the same order gives the same root.
  lemma {:induction false} RootShowsOrder(c: Config, rounds: seq<seq<Entry>>, k: nat, o: seq<nat>, o': seq<nat>)
    requires c.n > 0 && k < |rounds| && |o| == |o'|
    requires forall j :: 0 <= j < |o| ==> o[j] < c.n && o'[j] < c.n
    requires c.hashing.sha(Roots(InOrder(c, rounds, k, o))) == c.hashing.sha(Roots(InOrder(c, rounds, k, o')))
    ensures var sha, l, l' := c.hashing.sha, HashLists(c, rounds, k, o), HashLists(c, rounds, k, o');
            Broken(sha, BlockInputs(sha, l), BlockInputs(sha, l')) || (l == l' && (SharesDiffer(c, rounds, k) ==> o == o'))
  {
    var sha, l, l' := c.hashing.sha, HashLists(c, rounds, k, o), HashLists(c, rounds, k, o');
    RootsInOrder(c, rounds, k, o);
    RootsInOrder(c, rounds, k, o');
    hide Broken, BlockInputs, InOrder, ForShard, Roots, RootsOf, TxHashes;
    if l != l' {
      BlockRootBinds(sha, l, l');
    } else if SharesDiffer(c, rounds, k) {
      forall j | 0 <= j < |o|
        ensures o[j] == o'[j]
      {
        assert l[j] == l'[j];
      }
    }
  }
}
