/**
 Which shard a transaction goes to, what one dispatch puts on a shard's
 channel, and why the shards' shares add up to the whole.
 */
module Routing {
  import opened Arithmetic
  import opened Wire

  function ShardForTx(tx: Transaction, n: nat): (shard: nat)
    requires n > 0
    ensures shard < n
  {
    tx.nonce % n
  }

  // The entries of es that go to shard i, in order.
  function ForShard(n: nat, es: seq<Entry>, i: nat): seq<Entry>
    requires n > 0
  {
    if es == [] then []
    else
      var last := es[|es| - 1];
      ForShard(n, es[..|es| - 1], i) + if ShardForTx(last.tx, n) == i then [last] else []
  }

  // Shard i gets a transaction exactly when the shard count divides the
  // distance from i up to its nonce.
  lemma ShardOfNonce(tx: Transaction, n: nat, i: nat)
    requires n > 0 && i < n
    ensures ShardForTx(tx, n) == i <==> tx.nonce >= i && (tx.nonce - i) % n == 0
  {
    var x := tx.nonce;
    DivMod(x, n);
    if x % n == i {
      DivModUnique(x - i, n, x / n, 0);
    } else if x >= i && (x - i) % n == 0 {
      DivMod(x - i, n);
      DivModUnique(x, n, (x - i) / n, i);
    }
  }

  function TxMsgs(es: seq<Entry>): (ms: seq<Msg>)
    ensures |ms| == |es|
    ensures forall j :: 0 <= j < |es| ==> ms[j] == TxMsg(es[j])
  {
    seq(|es|, j requires 0 <= j < |es| => TxMsg(es[j]))
  }

  // Everything round r puts on shard i's channel when es is drained.
  function Segment(n: nat, r: nat, es: seq<Entry>, i: nat): seq<Msg>
    requires n > 0
  {
    (if i == 0 then [HeaderMsg(Wrap32(r), Wrap32(n))] else [])
    + TxMsgs(ForShard(n, es, i))
    + [EndMsg(Wrap32(r), Wrap32(|ForShard(n, es, i)|))]
  }

  // A segment can be read back: its round from its last message, the shard
  // count from the first on the leader's channel, the entries from the rest.
  lemma SegmentReads(n: nat, r: nat, es: seq<Entry>, i: nat)
    requires n > 0
    ensures var s, share := Segment(n, r, es, i), ForShard(n, es, i);
            && |s| == |share| + (if i == 0 then 2 else 1)
            && s[|s| - 1].EndMsg? && s[|s| - 1].endRound == Wrap32(r) && s[|s| - 1].txCount == Wrap32(|share|)
            && (i == 0 ==> |s| > 0 && s[0].HeaderMsg? && s[0].round == Wrap32(r) && s[0].numShards == Wrap32(n))
            && s[(if i == 0 then 1 else 0)..|s| - 1] == TxMsgs(share)
  {
    hide ForShard, Wrap32, TxMsgs;
    var share := ForShard(n, es, i);
    var end := [EndMsg(Wrap32(r), Wrap32(|share|))];
    if i == 0 {
      var h := [HeaderMsg(Wrap32(r), Wrap32(n))];
      assert Segment(n, r, es, i) == h + TxMsgs(share) + end;
      Middle(h, TxMsgs(share), end);
    } else {
      assert Segment(n, r, es, i) == [] + TxMsgs(share) + end;
      Middle([], TxMsgs(share), end);
    }
  }

  lemma Middle(a: seq<Msg>, b: seq<Msg>, c: seq<Msg>)
    requires |c| == 1
    ensures var s := a + b + c;
            |s| == |a| + |b| + 1 && s[|s| - 1] == c[0] && s[|a|..|s| - 1] == b && (a != [] ==> s[0] == a[0])
  {
  }

  lemma {:induction false} ForShardAppend(n: nat, a: seq<Entry>, b: seq<Entry>, i: nat)
    requires n > 0
    ensures ForShard(n, a + b, i) == ForShard(n, a, i) + ForShard(n, b, i)
  {
    if b == [] {
      assert a + b == a;
    } else {
      var b' := b[..|b| - 1];
      assert (a + b)[..|a + b| - 1] == a + b';
      ForShardAppend(n, a, b', i);
    }
  }

  lemma ForShardOne(n: nat, e: Entry, i: nat)
    requires n > 0
    ensures ForShard(n, [e], i) == if ShardForTx(e.tx, n) == i then [e] else []
  {
    assert [e][..0] == [];
  }

  // ForShard is exactly the order-preserving subsequence of the entries
  // routed to i: there is an increasing list of positions that picks it out,
  // and the positions are all those whose transaction is routed to i.
  function Positions(n: nat, es: seq<Entry>, i: nat): (ps: seq<nat>)
    requires n > 0
    ensures forall k :: 0 <= k < |ps| ==> ps[k] < |es|
  {
    if es == [] then []
    else
      Positions(n, es[..|es| - 1], i)
      + if ShardForTx(es[|es| - 1].tx, n) == i then [|es| - 1] else []
  }

  lemma {:induction false} PositionsAreAll(n: nat, es: seq<Entry>, i: nat)
    requires n > 0
    ensures var ps := Positions(n, es, i);
            && (forall j, k :: 0 <= j < k < |ps| ==> ps[j] < ps[k])
            && (forall p :: 0 <= p < |es| ==> (p in ps <==> ShardForTx(es[p].tx, n) == i))
  {
    hide ShardForTx;
    if es != [] {
      var m := |es| - 1;
      var es' := es[..m];
      PositionsAreAll(n, es', i);
      var ps, ps' := Positions(n, es, i), Positions(n, es', i);
      assert m !in ps';
      forall p | 0 <= p < m
        ensures p in ps <==> ShardForTx(es[p].tx, n) == i
      {
        assert es[p] == es'[p];
      }
    }
  }

  lemma {:induction false} PositionsPick(n: nat, es: seq<Entry>, i: nat)
    requires n > 0
    ensures var ps := Positions(n, es, i);
            && |ForShard(n, es, i)| == |ps|
            && forall k :: 0 <= k < |ps| ==> ForShard(n, es, i)[k] == es[ps[k]]
  {
    hide ShardForTx;
    if es != [] {
      PositionsPick(n, es[..|es| - 1], i);
    }
  }

  lemma {:induction false} ForShardIsSubsequence(n: nat, es: seq<Entry>, i: nat)
    requires n > 0
    ensures var ps := Positions(n, es, i);
            && |ForShard(n, es, i)| == |ps|
            && (forall k :: 0 <= k < |ps| ==> ForShard(n, es, i)[k] == es[ps[k]])
            && (forall j, k :: 0 <= j < k < |ps| ==> ps[j] < ps[k])
            && (forall p :: 0 <= p < |es| ==> (p in ps <==> ShardForTx(es[p].tx, n) == i))
  {
    PositionsAreAll(n, es, i);
    PositionsPick(n, es, i);
    hide ShardForTx, Positions, ForShard;
  }

  // ------------------------------------------------------------------
  // Sums over a sequence of numbers, and the shards' shares.

  function Sum(s: seq<nat>): nat {
    if s == [] then 0 else Sum(s[..|s| - 1]) + s[|s| - 1]
  }

  lemma {:induction false} SumUpdate(s: seq<nat>, k: nat, v: nat)
    requires k < |s|
    ensures Sum(s[k := v]) + s[k] == Sum(s) + v
  {
    var t := s[k := v];
    if k == |s| - 1 {
      assert t[..|t| - 1] == s[..|s| - 1];
    } else {
      assert t[..|t| - 1] == s[..|s| - 1][k := v];
      SumUpdate(s[..|s| - 1], k, v);
    }
  }

  lemma {:induction false} SumZero(s: seq<nat>)
    requires forall k :: 0 <= k < |s| ==> s[k] == 0
    ensures Sum(s) == 0
  {
    if s != [] {
      SumZero(s[..|s| - 1]);
    }
  }

  // order visits each shard below n once.
  ghost predicate Visits(n: nat, order: seq<nat>) {
    && |order| == n
    && (forall k :: 0 <= k < n ==> order[k] < n)
    && (forall j, k :: 0 <= j < k < n ==> order[j] != order[k])
  }

  function Counts(n: nat, es: seq<Entry>, order: seq<nat>): (c: seq<nat>)
    requires n > 0
    ensures |c| == |order|
    ensures forall k :: 0 <= k < |order| ==> c[k] == |ForShard(n, es, order[k])|
  {
    seq(|order|, k requires 0 <= k < |order| => |ForShard(n, es, order[k])|)
  }

  function FeeSum(es: seq<Entry>): nat {
    if es == [] then 0 else FeeSum(es[..|es| - 1]) + es[|es| - 1].tx.fee
  }

  function Fees(n: nat, es: seq<Entry>, order: seq<nat>): (c: seq<nat>)
    requires n > 0
    ensures |c| == |order|
    ensures forall k :: 0 <= k < |order| ==> c[k] == FeeSum(ForShard(n, es, order[k]))
  {
    seq(|order|, k requires 0 <= k < |order| => FeeSum(ForShard(n, es, order[k])))
  }

  function SetOf(s: seq<nat>): (r: set<nat>)
    ensures forall x :: x in r <==> x in s
  {
    set x | x in s
  }

  lemma {:induction false} DistinctSize(s: seq<nat>)
    requires forall j, k :: 0 <= j < k < |s| ==> s[j] != s[k]
    ensures |SetOf(s)| == |s|
  {
    if s != [] {
      var s' := s[..|s| - 1];
      DistinctSize(s');
      assert SetOf(s) == SetOf(s') + {s[|s| - 1]};
    } else {
      assert SetOf(s) == {};
    }
  }

  function Below(n: nat): (r: set<nat>)
    ensures forall x: nat :: x in r <==> x < n
  {
    if n == 0 then {} else Below(n - 1) + {n - 1}
  }

  lemma {:induction false} BelowSize(n: nat)
    ensures |Below(n)| == n
  {
    if n > 0 {
      BelowSize(n - 1);
    }
  }

  lemma SubsetSameSize(a: set<nat>, b: set<nat>)
    requires a <= b && |a| == |b|
    ensures a == b
  {
    assert |b - a| == |b| - |a|;
    assert b == a + (b - a);
  }

  // Pigeonhole: n distinct shards below n are all of them.
  lemma VisitsAll(n: nat, order: seq<nat>, i: nat)
    requires Visits(n, order) && i < n
    ensures i in order
  {
    DistinctSize(order);
    BelowSize(n);
    SubsetSameSize(SetOf(order), Below(n));
    assert i in SetOf(order);
  }

  lemma VisitedOnce(n: nat, order: seq<nat>, i: nat) returns (k: nat)
    requires Visits(n, order) && i < n
    ensures k < |order|
    ensures forall j :: 0 <= j < |order| ==> (order[j] == i <==> j == k)
  {
    VisitsAll(n, order, i);
    k :| 0 <= k < |order| && order[k] == i;
  }

  lemma {:induction false} FeeSumAppend(a: seq<Entry>, b: seq<Entry>)
    ensures FeeSum(a + b) == FeeSum(a) + FeeSum(b)
  {
    if b == [] {
      assert a + b == a;
    } else {
      assert (a + b)[..|a + b| - 1] == a + b[..|b| - 1];
      FeeSumAppend(a, b[..|b| - 1]);
    }
  }

  lemma ForShardSnoc(n: nat, es: seq<Entry>, e: Entry, i: nat)
    requires n > 0
    ensures ForShard(n, es + [e], i) == ForShard(n, es, i) + if ShardForTx(e.tx, n) == i then [e] else []
  {
    assert (es + [e])[..|es|] == es;
  }

  // One more entry, routed to the shard visited k-th, changes only that share.
  lemma OneMoreCount(n: nat, es: seq<Entry>, e: Entry, order: seq<nat>, k: nat)
    requires n > 0 && k < |order|
    requires forall j :: 0 <= j < |order| ==> (order[j] == ShardForTx(e.tx, n) <==> j == k)
    ensures var c := Counts(n, es, order);
            Counts(n, es + [e], order) == c[k := c[k] + 1]
  {
    hide ShardForTx, ForShard;
    var c, c' := Counts(n, es, order), Counts(n, es + [e], order);
    forall j | 0 <= j < |order|
      ensures c'[j] == c[k := c[k] + 1][j]
    {
      ForShardSnoc(n, es, e, order[j]);
    }
  }

  lemma OneMoreFee(n: nat, es: seq<Entry>, e: Entry, order: seq<nat>, k: nat)
    requires n > 0 && k < |order|
    requires forall j :: 0 <= j < |order| ==> (order[j] == ShardForTx(e.tx, n) <==> j == k)
    ensures var f := Fees(n, es, order);
            Fees(n, es + [e], order) == f[k := f[k] + e.tx.fee]
  {
    hide ShardForTx, ForShard, FeeSum;
    var f, f' := Fees(n, es, order), Fees(n, es + [e], order);
    forall j | 0 <= j < |order|
      ensures f'[j] == f[k := f[k] + e.tx.fee][j]
    {
      ForShardSnoc(n, es, e, order[j]);
      if j == k {
        FeeSumOne(ForShard(n, es, order[j]), e);
      } else {
        assert ForShard(n, es + [e], order[j]) == ForShard(n, es, order[j]);
      }
    }
  }

  // One more entry adds itself, and its fee, to exactly one shard's share.
  lemma OneMoreEntry(n: nat, es: seq<Entry>, e: Entry, order: seq<nat>)
    requires n > 0 && Visits(n, order)
    ensures Sum(Counts(n, es + [e], order)) == Sum(Counts(n, es, order)) + 1
    ensures Sum(Fees(n, es + [e], order)) == Sum(Fees(n, es, order)) + e.tx.fee
  {
    hide ShardForTx, ForShard, FeeSum, Visits;
    var k := VisitedOnce(n, order, ShardForTx(e.tx, n));
    var c, f := Counts(n, es, order), Fees(n, es, order);
    OneMoreCount(n, es, e, order, k);
    SumUpdate(c, k, c[k] + 1);
    OneMoreFee(n, es, e, order, k);
    SumUpdate(f, k, f[k] + e.tx.fee);
  }

  lemma FeeSumOne(es: seq<Entry>, e: Entry)
    ensures FeeSum(es + [e]) == FeeSum(es) + e.tx.fee
  {
    assert (es + [e])[..|es|] == es;
  }

  // Whatever the order the shards are visited in, their shares of a drained
  // list add up to its length and to its total fee.
  lemma {:induction false} SharesAddUp(n: nat, es: seq<Entry>, order: seq<nat>)
    requires n > 0 && Visits(n, order)
    ensures Sum(Counts(n, es, order)) == |es|
    ensures Sum(Fees(n, es, order)) == FeeSum(es)
  {
    hide ShardForTx, ForShard;
    if es == [] {
      forall k | 0 <= k < n
        ensures Counts(n, es, order)[k] == Fees(n, es, order)[k] == 0
      {
        ForShardLength(n, es, order[k]);
        assert ForShard(n, es, order[k]) == [];
      }
      SumZero(Counts(n, es, order));
      SumZero(Fees(n, es, order));
    } else {
      var e, es' := es[|es| - 1], es[..|es| - 1];
      SharesAddUp(n, es', order);
      OneMoreEntry(n, es', e, order);
      assert es == es' + [e];
    }
  }

  lemma {:induction false} FeeSumBound(es: seq<Entry>)
    ensures FeeSum(es) <= |es| * (TWO32 - 1)
  {
    if es != [] {
      FeeSumBound(es[..|es| - 1]);
    }
  }

  lemma {:induction false} ForShardLength(n: nat, es: seq<Entry>, i: nat)
    requires n > 0
    ensures |ForShard(n, es, i)| <= |es|
  {
    if es != [] {
      ForShardLength(n, es[..|es| - 1], i);
    }
  }
}
