/**
 The election: one winner per shard, drawn without replacement with
 probability proportional to stake. The random numbers are a parameter.
 */
module Election {
  import opened Arithmetic
  import opened Wire
  import opened Routing

  datatype Role = Validator | Winner

  datatype Activity = NodeIdle | NodeProcessing

  class Node {
    const id: u32
    const stake: u64
    var shardId: int
    var role: Role
    var activity: Activity

    constructor (id: u32, stake: u64)
      ensures this.id == id && this.stake == stake
      ensures shardId == -1 && role == Validator && activity == NodeIdle
    {
      this.id := id;
      this.stake := stake;
      shardId := -1;
      role := Validator;
      activity := NodeIdle;
    }

    method AssignShard(shard: nat)
      modifies this
      ensures shardId == shard && role == Winner && activity == old(activity)
    {
      shardId := shard;
      role := Winner;
    }
  }

  // ------------------------------------------------------------------
  // One draw.

  // The stake of the unused nodes among the first m.
  function Cum(stakes: seq<nat>, used: seq<bool>, m: nat): nat
    requires |used| == |stakes| && m <= |stakes|
  {
    if m == 0 then 0
    else Cum(stakes, used, m - 1) + if used[m - 1] then 0 else stakes[m - 1]
  }

  function Total(stakes: seq<nat>, used: seq<bool>): nat
    requires |used| == |stakes|
  {
    Cum(stakes, used, |stakes|)
  }

  // The first unused node, from position m on, whose cumulative stake exceeds
  // pick; node 0 when there is none.
  function SelectFrom(stakes: seq<nat>, used: seq<bool>, pick: nat, m: nat): (n: nat)
    requires |used| == |stakes| && m <= |stakes| && |stakes| > 0
    ensures n < |stakes|
    decreases |stakes| - m
  {
    if m == |stakes| then 0
    else if !used[m] && Wrap64(Cum(stakes, used, m + 1)) > pick then m
    else SelectFrom(stakes, used, pick, m + 1)
  }

  function Select(stakes: seq<nat>, used: seq<bool>, pick: nat): (n: nat)
    requires |used| == |stakes| > 0
    ensures n < |stakes|
  {
    SelectFrom(stakes, used, pick, 0)
  }

  function Pick(stakes: seq<nat>, used: seq<bool>, random: nat): nat
    requires |used| == |stakes|
  {
    var total := Wrap64(Total(stakes, used));
    if total > 0 then random % total else 0
  }

  function WinnerOf(stakes: seq<nat>, used: seq<bool>, random: nat): (n: nat)
    requires |used| == |stakes| > 0
    ensures n < |stakes|
  {
    Select(stakes, used, Pick(stakes, used, random))
  }

  // The winners of successive draws, one for each random number.
  function Draws(stakes: seq<nat>, used: seq<bool>, randoms: seq<nat>): (ws: seq<nat>)
    requires |used| == |stakes| > 0
    ensures |ws| == |randoms|
    ensures forall s :: 0 <= s < |ws| ==> ws[s] < |stakes|
    decreases |randoms|
  {
    if randoms == [] then []
    else
      var w := WinnerOf(stakes, used, randoms[0]);
      [w] + Draws(stakes, used[w := true], randoms[1..])
  }

  function NoneUsed(n: nat): seq<bool> {
    seq(n, _ => false)
  }

  ghost predicate NoOverflow(stakes: seq<nat>) {
    Total(stakes, NoneUsed(|stakes|)) < TWO64
  }

  lemma {:induction false} CumMonotone(stakes: seq<nat>, used: seq<bool>, l: nat, m: nat)
    requires |used| == |stakes| && l <= m <= |stakes|
    ensures Cum(stakes, used, l) <= Cum(stakes, used, m)
  {
    if l < m {
      CumMonotone(stakes, used, l, m - 1);
    }
  }

  // Where the scan for pick stops: node n wins exactly the values from the
  // stake before it up to the stake including it.
  lemma {:induction false} SelectInterval(stakes: seq<nat>, used: seq<bool>, pick: nat, m: nat, n: nat)
    requires |used| == |stakes| && m <= |stakes| && n < |stakes|
    requires Cum(stakes, used, m) <= pick < Total(stakes, used) < TWO64
    ensures SelectFrom(stakes, used, pick, m) == n <==> Cum(stakes, used, n) <= pick < Cum(stakes, used, n + 1)
    decreases |stakes| - m
  {
    CumMonotone(stakes, used, m + 1, |stakes|);
    if !used[m] && Cum(stakes, used, m + 1) > pick {
      if n < m {
        CumMonotone(stakes, used, n + 1, m);
      } else if n > m {
        CumMonotone(stakes, used, m + 1, n);
      }
    } else {
      SelectInterval(stakes, used, pick, m + 1, n);
    }
  }

  function Range(lo: nat, hi: nat): (r: set<nat>)
    requires lo <= hi
    ensures forall x: nat :: x in r <==> lo <= x < hi
    decreases hi - lo
  {
    if lo == hi then {} else Range(lo, hi - 1) + {hi - 1}
  }

  lemma {:induction false} RangeSize(lo: nat, hi: nat)
    requires lo <= hi
    ensures |Range(lo, hi)| == hi - lo
    decreases hi - lo
  {
    if lo < hi {
      RangeSize(lo, hi - 1);
    }
  }

  // The picks below the remaining stake that elect node n.
  function PicksFor(stakes: seq<nat>, used: seq<bool>, n: nat): (ps: set<nat>)
    requires |used| == |stakes| > 0
    ensures forall p: nat :: p in ps <==> p < Total(stakes, used) && Select(stakes, used, p) == n
  {
    set p | p in Below(Total(stakes, used)) && Select(stakes, used, p) == n
  }

  // Exact stake weighting: an unused node is elected by exactly as many picks
  // as it has stake, and a used one by none.
  lemma {:induction false} ExactWeight(stakes: seq<nat>, used: seq<bool>, n: nat)
    requires |used| == |stakes| && n < |stakes|
    requires Total(stakes, used) < TWO64
    ensures |PicksFor(stakes, used, n)| == if used[n] then 0 else stakes[n]
  {
    var lo, hi := Cum(stakes, used, n), Cum(stakes, used, n + 1);
    CumMonotone(stakes, used, n + 1, |stakes|);
    forall p: nat
      ensures p in PicksFor(stakes, used, n) <==> p in Range(lo, hi)
    {
      if p < Total(stakes, used) {
        SelectInterval(stakes, used, p, 0, n);
      }
    }
    assert PicksFor(stakes, used, n) == Range(lo, hi);
    RangeSize(lo, hi);
  }

  // ------------------------------------------------------------------
  // From random numbers to winners.

  // A random number below the total elects the node in whose interval of the
  // cumulated stakes it lies.
  lemma {:induction false} DrawInterval(stakes: seq<nat>, used: seq<bool>, random: nat, n: nat)
    requires |used| == |stakes| && n < |stakes|
    requires random < Total(stakes, used) < TWO64
    ensures WinnerOf(stakes, used, random) == n <==> Cum(stakes, used, n) <= random < Cum(stakes, used, n + 1)
  {
    DivModUnique(random, Total(stakes, used), 0, random);
    assert Pick(stakes, used, random) == random;
    assert Cum(stakes, used, 0) == 0;
    SelectInterval(stakes, used, random, 0, n);
  }

  // Winners repeat with the total stake as their period.
  lemma {:induction false} DrawPeriod(stakes: seq<nat>, used: seq<bool>, random: nat)
    requires |used| == |stakes| > 0 && Total(stakes, used) < TWO64
    ensures WinnerOf(stakes, used, random + Total(stakes, used)) == WinnerOf(stakes, used, random)
  {
    hide Select, Total;
    var total := Total(stakes, used);
    if total > 0 {
      DivMod(random, total);
      var q := random / total;
      MulAdd(q, 1, total);
      DivModUnique(random + total, total, q + 1, random % total);
    }
  }

  // Those of the random numbers from start on, as many as there is stake, that
  // elect node n.
  function ElectingFrom(stakes: seq<nat>, used: seq<bool>, n: nat, start: nat): (rs: set<nat>)
    requires |used| == |stakes| > 0
    ensures forall r: nat :: r in rs <==> start <= r < start + Total(stakes, used) && WinnerOf(stakes, used, r) == n
  {
    set r | r in Range(start, start + Total(stakes, used)) && WinnerOf(stakes, used, r) == n
  }

  // Of any consecutive random numbers, as many as there is stake, exactly the
  // stake of n elects n.
  lemma {:induction false} ExactShare(stakes: seq<nat>, used: seq<bool>, n: nat, start: nat)
    requires |used| == |stakes| && n < |stakes| && Total(stakes, used) < TWO64
    ensures |ElectingFrom(stakes, used, n, start)| == if used[n] then 0 else stakes[n]
  {
    if start == 0 {
      FirstWindow(stakes, used, n);
      ExactWeight(stakes, used, n);
    } else {
      var last := start - 1;
      ExactShare(stakes, used, n, last);
      DrawPeriod(stakes, used, last);
      hide WinnerOf, Total, Cum;
      WindowMoves(stakes, used, n, last);
    }
  }

  lemma WindowMoves(stakes: seq<nat>, used: seq<bool>, n: nat, start: nat)
    requires |used| == |stakes| > 0
    requires WinnerOf(stakes, used, start + Total(stakes, used)) == WinnerOf(stakes, used, start)
    ensures |ElectingFrom(stakes, used, n, start + 1)| == |ElectingFrom(stakes, used, n, start)|
  {
    hide *;
    var total := Total(stakes, used);
    var before, after := ElectingFrom(stakes, used, n, start), ElectingFrom(stakes, used, n, start + 1);
    if total > 0 && WinnerOf(stakes, used, start) == n {
      assert after == before - {start} + {start + total};
    } else {
      assert after == before;
    }
  }

  lemma FirstWindow(stakes: seq<nat>, used: seq<bool>, n: nat)
    requires |used| == |stakes| && n < |stakes| && Total(stakes, used) < TWO64
    ensures ElectingFrom(stakes, used, n, 0) == PicksFor(stakes, used, n)
  {
    assert Cum(stakes, used, 0) == 0;
    forall r: nat
      ensures r in ElectingFrom(stakes, used, n, 0) <==> r in PicksFor(stakes, used, n)
    {
      if r < Total(stakes, used) {
        DrawInterval(stakes, used, r, n);
        SelectInterval(stakes, used, r, 0, n);
      }
    }
  }

  // A draw elects an unused node exactly when stake remains or node 0 is
  // still unused; with stake remaining the winner has some.
  lemma {:induction false} SelectFound(stakes: seq<nat>, used: seq<bool>, pick: nat, m: nat)
    requires |used| == |stakes| && m <= |stakes|
    requires Cum(stakes, used, m) <= pick < Total(stakes, used) < TWO64
    ensures var n := SelectFrom(stakes, used, pick, m); !used[n] && stakes[n] > 0
    decreases |stakes| - m
  {
    CumMonotone(stakes, used, m + 1, |stakes|);
    if used[m] || Cum(stakes, used, m + 1) <= pick {
      SelectFound(stakes, used, pick, m + 1);
    }
  }

  lemma {:induction false} SelectNotFound(stakes: seq<nat>, used: seq<bool>, pick: nat, m: nat)
    requires |used| == |stakes| > 0 && m <= |stakes|
    requires Total(stakes, used) == 0
    ensures SelectFrom(stakes, used, pick, m) == 0
    decreases |stakes| - m
  {
    if m < |stakes| {
      CumMonotone(stakes, used, m + 1, |stakes|);
      SelectNotFound(stakes, used, pick, m + 1);
    }
  }

  lemma DrawIsFresh(stakes: seq<nat>, used: seq<bool>, random: nat)
    requires |used| == |stakes| > 0 && Total(stakes, used) < TWO64
    ensures var w := WinnerOf(stakes, used, random);
            && (!used[w] <==> Total(stakes, used) > 0 || !used[0])
            && (Total(stakes, used) > 0 ==> stakes[w] > 0)
            && (Total(stakes, used) == 0 ==> w == 0)
  {
    var pick := Pick(stakes, used, random);
    if Total(stakes, used) > 0 {
      assert pick < Total(stakes, used);
      SelectFound(stakes, used, pick, 0);
    } else {
      SelectNotFound(stakes, used, pick, 0);
    }
  }

  // ------------------------------------------------------------------
  // A whole election.

  // How many unused nodes among the first m have stake.
  function Backed(stakes: seq<nat>, used: seq<bool>, m: nat): nat
    requires |used| == |stakes| && m <= |stakes|
  {
    if m == 0 then 0
    else Backed(stakes, used, m - 1) + if !used[m - 1] && stakes[m - 1] > 0 then 1 else 0
  }

  lemma {:induction false} BackedIffStake(stakes: seq<nat>, used: seq<bool>, m: nat)
    requires |used| == |stakes| && m <= |stakes|
    ensures Backed(stakes, used, m) > 0 <==> Cum(stakes, used, m) > 0
  {
    if m > 0 {
      BackedIffStake(stakes, used, m - 1);
    }
  }

  // Using up node w takes it out of the count and of the stake.
  lemma {:induction false} UseUp(stakes: seq<nat>, used: seq<bool>, w: nat, m: nat)
    requires |used| == |stakes| && m <= |stakes| && w < |stakes|
    ensures Backed(stakes, used[w := true], m)
         == Backed(stakes, used, m) - if w < m && !used[w] && stakes[w] > 0 then 1 else 0
    ensures Cum(stakes, used[w := true], m) <= Cum(stakes, used, m)
  {
    if m > 0 {
      UseUp(stakes, used, w, m - 1);
    }
  }

  // No draw repeats an earlier one or a node already used.
  ghost predicate AllFresh(used: seq<bool>, ws: seq<nat>)
    requires forall s :: 0 <= s < |ws| ==> ws[s] < |used|
  {
    && (forall s :: 0 <= s < |ws| ==> !used[ws[s]])
    && (forall s, t :: 0 <= s < t < |ws| ==> ws[s] != ws[t])
  }

  lemma AllFreshStep(used: seq<bool>, w: nat, ws: seq<nat>)
    requires w < |used| && forall s :: 0 <= s < |ws| ==> ws[s] < |used|
    ensures AllFresh(used, [w] + ws) <==> !used[w] && AllFresh(used[w := true], ws)
  {
    var all := [w] + ws;
    assert all[0] == w && forall s :: 0 <= s < |ws| ==> all[s + 1] == ws[s];
    if AllFresh(used, all) {
      forall s | 0 <= s < |ws|
        ensures !used[w := true][ws[s]]
      {
        assert all[0] != all[s + 1] && !used[all[s + 1]];
      }
      forall s, t | 0 <= s < t < |ws|
        ensures ws[s] != ws[t]
      {
        assert all[s + 1] != all[t + 1];
      }
    }
    if !used[w] && AllFresh(used[w := true], ws) {
      forall s | 0 <= s < |ws|
        ensures ws[s] != w && !used[ws[s]]
      {
        assert !used[w := true][ws[s]];
      }
    }
  }

  // The draws are all fresh exactly when there are no more of them than
  // unused nodes with stake, or one more and node 0 is unused without stake.
  lemma {:induction false} FreshDraws(stakes: seq<nat>, used: seq<bool>, randoms: seq<nat>)
    requires |used| == |stakes| > 0 && Total(stakes, used) < TWO64
    ensures AllFresh(used, Draws(stakes, used, randoms)) <==>
              var backed := Backed(stakes, used, |stakes|);
              |randoms| <= backed || (|randoms| == backed + 1 && !used[0] && stakes[0] == 0)
    decreases |randoms|
  {
    if randoms != [] {
      var w := WinnerOf(stakes, used, randoms[0]);
      var used' := used[w := true];
      DrawIsFresh(stakes, used, randoms[0]);
      BackedIffStake(stakes, used, |stakes|);
      UseUp(stakes, used, w, |stakes|);
      FreshDraws(stakes, used', randoms[1..]);
      hide WinnerOf, Backed, Cum, AllFresh;
      AllFreshStep(used, w, Draws(stakes, used', randoms[1..]));
    }
  }

  ghost predicate Distinct(ws: seq<nat>) {
    forall s, t :: 0 <= s < t < |ws| ==> ws[s] != ws[t]
  }

  // Whether no more winners are drawn than there are nodes with stake. Without
  // stake left a draw falls back to node 0, which may be unused that once.
  predicate EnoughStake(stakes: seq<nat>, draws: nat) {
    var backed := Backed(stakes, NoneUsed(|stakes|), |stakes|);
    draws <= backed || (draws == backed + 1 && stakes != [] && stakes[0] == 0)
  }

  // For every sequence of random numbers: the winners are pairwise distinct
  // exactly when enough nodes have stake. Random numbers play no part in it.
  lemma {:induction false} WinnersDistinct(stakes: seq<nat>, randoms: seq<nat>)
    requires |stakes| > 0 && NoOverflow(stakes)
    ensures Distinct(Draws(stakes, NoneUsed(|stakes|), randoms)) <==> EnoughStake(stakes, |randoms|)
  {
    FreshDraws(stakes, NoneUsed(|stakes|), randoms);
  }

  lemma {:induction false} AllBacked(stakes: seq<nat>, m: nat)
    requires m <= |stakes| && forall n :: 0 <= n < |stakes| ==> stakes[n] >= 1
    ensures Backed(stakes, NoneUsed(|stakes|), m) == m
  {
    if m > 0 {
      AllBacked(stakes, m - 1);
    }
  }

  // With a stake of at least 1 everywhere and as many draws as nodes, the
  // winners are the nodes in some order.
  lemma {:induction false} WinnersArePermutation(stakes: seq<nat>, randoms: seq<nat>)
    requires |stakes| > 0 && NoOverflow(stakes) && |randoms| == |stakes|
    requires forall n :: 0 <= n < |stakes| ==> stakes[n] >= 1
    ensures Visits(|stakes|, Draws(stakes, NoneUsed(|stakes|), randoms))
  {
    AllBacked(stakes, |stakes|);
    WinnersDistinct(stakes, randoms);
  }

  lemma {:induction false} CumBound(stakes: seq<nat>, used: seq<bool>, m: nat, most: nat)
    requires |used| == |stakes| && m <= |stakes|
    requires forall n :: 0 <= n < |stakes| ==> stakes[n] <= most
    ensures Cum(stakes, used, m) <= m * most
  {
    if m > 0 {
      CumBound(stakes, used, m - 1, most);
      assert m * most == (m - 1) * most + most;
    }
  }

  const MAX_NODES := 256

  // setup_nodes gives each of at most 256 nodes a stake of 100 to 999.
  function SetupStake(random: nat): (stake: u64)
    ensures 100 <= stake <= 999
  {
    100 + random % 900
  }

  // The first 900 random numbers give the stakes 100 to 999 in order, then they
  // repeat.
  lemma SetupStakes(random: nat)
    ensures SetupStake(random + 900) == SetupStake(random)
    ensures random < 900 ==> SetupStake(random) == random + 100
  {
  }

  lemma {:induction false} SetupIsSound(stakes: seq<nat>)
    requires |stakes| <= MAX_NODES && forall n :: 0 <= n < |stakes| ==> 100 <= stakes[n] <= 999
    ensures NoOverflow(stakes)
  {
    CumBound(stakes, NoneUsed(|stakes|), |stakes|, 999);
    assert |stakes| * 999 <= 256 * 999;
  }

  // ------------------------------------------------------------------
  // The loops.

  function Stakes(nodes: seq<Node>): (st: seq<nat>)
    ensures |st| == |nodes|
    ensures forall i :: 0 <= i < |nodes| ==> st[i] == nodes[i].stake
  {
    seq(|nodes|, i requires 0 <= i < |nodes| => nodes[i].stake)
  }

  // The first inner loop of a draw: the stake of the nodes not yet used.
  method TotalStake(nodes: seq<Node>, used: array<bool>) returns (totalStake: u64)
    requires used.Length == |nodes|
    ensures totalStake == Wrap64(Total(Stakes(nodes), used[..]))
  {
    totalStake := 0;
    for n := 0 to |nodes|
      invariant totalStake == Wrap64(Cum(Stakes(nodes), used[..], n))
    {
      if !used[n] {
        totalStake := Wrap64(totalStake + nodes[n].stake);
      }
    }
  }

  lemma CumStart(stakes: seq<nat>, used: seq<bool>)
    requires |used| == |stakes|
    ensures Wrap64(Cum(stakes, used, 0)) == 0
  {
  }

  lemma CumStep(stakes: seq<nat>, used: seq<bool>, n: nat)
    requires |used| == |stakes| && n < |stakes|
    ensures used[n] ==> Cum(stakes, used, n + 1) == Cum(stakes, used, n)
    ensures !used[n] ==> Wrap64(Cum(stakes, used, n + 1)) == Wrap64(Wrap64(Cum(stakes, used, n)) + stakes[n])
  {
  }

  // The second: the node at which the cumulative stake passes pick.
  method Scan(nodes: seq<Node>, used: array<bool>, pick: nat) returns (winnerIdx: nat)
    requires |nodes| > 0 && used.Length == |nodes|
    ensures winnerIdx == Select(Stakes(nodes), used[..], pick)
  {
    hide Cum, Wrap64;
    ghost var stakes, mask := Stakes(nodes), used[..];
    var cumulative: u64 := 0;
    CumStart(stakes, mask);
    winnerIdx := 0;
    for n := 0 to |nodes|
      invariant cumulative == Wrap64(Cum(stakes, mask, n))
      invariant winnerIdx == 0
      invariant Select(stakes, mask, pick) == SelectFrom(stakes, mask, pick, n)
    {
      CumStep(stakes, mask, n);
      if used[n] {
        continue;
      }
      cumulative := Wrap64(cumulative + nodes[n].stake);
      if cumulative > pick {
        return n;
      }
    }
  }

  method DrawOne(nodes: seq<Node>, used: array<bool>, random: nat) returns (winnerIdx: nat)
    requires |nodes| > 0 && used.Length == |nodes|
    ensures winnerIdx == WinnerOf(Stakes(nodes), used[..], random)
  {
    hide Total, Select;
    var totalStake := TotalStake(nodes, used);
    var pick := if totalStake > 0 then random % totalStake else 0;
    winnerIdx := Scan(nodes, used, pick);
  }

  ghost predicate DistinctNodes(nodes: seq<Node>) {
    forall i, j :: 0 <= i < j < |nodes| ==> nodes[i] != nodes[j]
  }

  // The nodes used once the winners ws are used too.
  function Marked(used: seq<bool>, ws: seq<nat>): (marked: seq<bool>)
    ensures |marked| == |used|
    ensures forall i :: 0 <= i < |used| ==> (marked[i] <==> used[i] || i in ws)
  {
    seq(|used|, i requires 0 <= i < |used| => used[i] || i in ws)
  }

  lemma MarkedCons(used: seq<bool>, w: nat, ws: seq<nat>)
    requires w < |used|
    ensures Marked(used, [w] + ws) == Marked(used[w := true], ws)
  {
  }

  lemma {:induction false} DrawsSnoc(stakes: seq<nat>, used: seq<bool>, randoms: seq<nat>, random: nat)
    requires |used| == |stakes| > 0
    ensures var ws := Draws(stakes, used, randoms);
            Draws(stakes, used, randoms + [random]) == ws + [WinnerOf(stakes, Marked(used, ws), random)]
    decreases |randoms|
  {
    hide WinnerOf;
    if randoms == [] {
      assert Marked(used, []) == used;
      assert (randoms + [random])[1..] == [];
    } else {
      var w := WinnerOf(stakes, used, randoms[0]);
      assert (randoms + [random])[1..] == randoms[1..] + [random];
      DrawsSnoc(stakes, used[w := true], randoms[1..], random);
      MarkedCons(used, w, Draws(stakes, used[w := true], randoms[1..]));
    }
  }

  lemma OneMore(randoms: seq<nat>, s: nat)
    requires s < |randoms|
    ensures randoms[..s + 1] == randoms[..s] + [randoms[s]]
  {
  }

  lemma NextDraw(stakes: seq<nat>, randoms: seq<nat>, s: nat)
    requires |stakes| > 0 && s < |randoms|
    ensures var none := NoneUsed(|stakes|);
            var ws := Draws(stakes, none, randoms[..s]);
            Draws(stakes, none, randoms[..s + 1]) == ws + [WinnerOf(stakes, Marked(none, ws), randoms[s])]
  {
    hide WinnerOf, Draws, Marked;
    OneMore(randoms, s);
    DrawsSnoc(stakes, NoneUsed(|stakes|), randoms[..s], randoms[s]);
  }

  // The last draw that elected node i, or -1.
  function LastDraw(ws: seq<nat>, i: nat): (s: int)
    ensures s >= -1 && (s == -1 <==> i !in ws)
    ensures s >= 0 ==> s < |ws| && ws[s] == i && i !in ws[s + 1..]
  {
    if ws == [] then -1
    else if ws[|ws| - 1] == i then |ws| - 1
    else LastDraw(ws[..|ws| - 1], i)
  }

  lemma LastDrawSnoc(ws: seq<nat>, w: nat, i: nat)
    ensures LastDraw(ws + [w], i) == if w == i then |ws| else LastDraw(ws, i)
  {
    assert (ws + [w])[..|ws|] == ws;
  }

  function ShardIds(nodes: seq<Node>): (ids: seq<int>)
    reads nodes
    ensures |ids| == |nodes|
    ensures forall i :: 0 <= i < |nodes| ==> ids[i] == nodes[i].shardId
  {
    seq(|nodes|, i requires 0 <= i < |nodes| reads nodes => nodes[i].shardId)
  }

  function Roles(nodes: seq<Node>): (roles: seq<Role>)
    reads nodes
    ensures |roles| == |nodes|
    ensures forall i :: 0 <= i < |nodes| ==> roles[i] == nodes[i].role
  {
    seq(|nodes|, i requires 0 <= i < |nodes| reads nodes => nodes[i].role)
  }

  // Shard ids and roles before an election.
  function NoShards(n: nat): (ids: seq<int>)
    ensures |ids| == n && forall i :: 0 <= i < n ==> ids[i] == -1
  {
    seq(n, _ => -1)
  }

  function AllValidators(n: nat): (roles: seq<Role>)
    ensures |roles| == n && forall i :: 0 <= i < n ==> roles[i] == Validator
  {
    seq(n, _ => Validator)
  }

  // The nodes' shard ids after the draws ws: each keeps the last one it won.
  function IdsAfter(ids: seq<int>, ws: seq<nat>): (after: seq<int>)
    ensures |after| == |ids|
    ensures forall i :: 0 <= i < |ids| ==> after[i] == if LastDraw(ws, i) >= 0 then LastDraw(ws, i) else ids[i]
  {
    seq(|ids|, i requires 0 <= i < |ids| => if LastDraw(ws, i) >= 0 then LastDraw(ws, i) else ids[i])
  }

  function RolesAfter(roles: seq<Role>, ws: seq<nat>): (after: seq<Role>)
    ensures |after| == |roles|
    ensures forall i :: 0 <= i < |roles| ==> after[i] == if i in ws then Winner else roles[i]
  {
    seq(|roles|, i requires 0 <= i < |roles| => if i in ws then Winner else roles[i])
  }

  lemma DistinctKeepShards(ids: seq<int>, ws: seq<nat>)
    requires forall s :: 0 <= s < |ws| ==> ws[s] < |ids|
    ensures Distinct(ws) <==> forall s :: 0 <= s < |ws| ==> IdsAfter(ids, ws)[ws[s]] == s
  {
    hide LastDraw;
    forall s | 0 <= s < |ws|
      ensures s <= LastDraw(ws, ws[s]) == IdsAfter(ids, ws)[ws[s]]
      ensures ws[LastDraw(ws, ws[s])] == ws[s]
    {
      assert ws[s] in ws;
    }
    hide IdsAfter;
    if !Distinct(ws) {
      var s, t :| 0 <= s < t < |ws| && ws[s] == ws[t];
      assert IdsAfter(ids, ws)[ws[s]] >= t;
    }
  }

  // Every winner still holds the shard it was drawn for exactly when enough
  // nodes have stake, whatever the random numbers; it always has the role.
  lemma {:induction false} WinnersKeepShards(stakes: seq<nat>, randoms: seq<nat>, ids: seq<int>, roles: seq<Role>)
    requires |stakes| == |ids| == |roles| > 0 && NoOverflow(stakes)
    ensures var ws := Draws(stakes, NoneUsed(|stakes|), randoms);
            && ((forall s :: 0 <= s < |ws| ==> IdsAfter(ids, ws)[ws[s]] == s) <==> EnoughStake(stakes, |randoms|))
            && forall s :: 0 <= s < |ws| ==> RolesAfter(roles, ws)[ws[s]] == Winner
  {
    WinnersDistinct(stakes, randoms);
    var ws := Draws(stakes, NoneUsed(|stakes|), randoms);
    DistinctKeepShards(ids, ws);
    forall s | 0 <= s < |ws|
      ensures RolesAfter(roles, ws)[ws[s]] == Winner
    {
      assert ws[s] in ws;
    }
  }

  // As many draws as nodes with positive stakes: every shard keeps a winner of
  // its own.
  lemma {:induction false} SoundElection(stakes: seq<nat>, randoms: seq<nat>, ids: seq<int>, roles: seq<Role>)
    requires |stakes| == |ids| == |roles| == |randoms| > 0 && NoOverflow(stakes)
    requires forall n :: 0 <= n < |stakes| ==> stakes[n] >= 1
    ensures var ws := Draws(stakes, NoneUsed(|stakes|), randoms);
            && Visits(|stakes|, ws)
            && (forall s :: 0 <= s < |ws| ==> IdsAfter(ids, ws)[ws[s]] == s && RolesAfter(roles, ws)[ws[s]] == Winner)
  {
    AllBacked(stakes, |stakes|);
    WinnersArePermutation(stakes, randoms);
    WinnersKeepShards(stakes, randoms, ids, roles);
  }

  // Two draws from one node with stake and one without elect a node twice.
  lemma {:induction false} TwoDrawsOneStake(r0: nat, r1: nat)
    ensures !Distinct(Draws([1, 0], NoneUsed(2), [r0, r1]))
  {
    var stakes := [1, 0];
    var none := NoneUsed(2);
    assert Cum(stakes, none, 0) == 0 && Cum(stakes, none, 1) == 1 && Cum(stakes, none, 2) == 1;
    assert Backed(stakes, none, 0) == 0 && Backed(stakes, none, 1) == 1 && Backed(stakes, none, 2) == 1;
    WinnersDistinct(stakes, [r0, r1]);
  }

  lemma OneMoreDraw(ids: seq<int>, roles: seq<Role>, ws: seq<nat>, w: nat)
    requires w < |ids| == |roles|
    ensures IdsAfter(ids, ws + [w]) == IdsAfter(ids, ws)[w := |ws|]
    ensures RolesAfter(roles, ws + [w]) == RolesAfter(roles, ws)[w := Winner]
    ensures Marked(NoneUsed(|ids|), ws + [w]) == Marked(NoneUsed(|ids|), ws)[w := true]
  {
    forall i: nat | i < |ids|
      ensures LastDraw(ws + [w], i) == if w == i then |ws| else LastDraw(ws, i)
    {
      LastDrawSnoc(ws, w, i);
    }
  }

  // The first s draws have been made: which nodes are used, who has won, and
  // the nodes' shard ids and roles.
  ghost predicate Drawn(stakes: seq<nat>, randoms: seq<nat>, s: nat, nodes: seq<Node>, ids0: seq<int>, roles0: seq<Role>,
                        used: seq<bool>, winners: seq<Node>, ids: seq<int>, roles: seq<Role>)
    requires |stakes| == |nodes| == |ids0| == |roles0| > 0 && s <= |randoms| && s <= |winners|
  {
    var ws := Draws(stakes, NoneUsed(|stakes|), randoms[..s]);
    && used == Marked(NoneUsed(|stakes|), ws)
    && (forall t :: 0 <= t < s ==> winners[t] == nodes[ws[t]])
    && ids == IdsAfter(ids0, ws)
    && roles == RolesAfter(roles0, ws)
  }

  lemma NothingDrawn(stakes: seq<nat>, randoms: seq<nat>, nodes: seq<Node>, ids0: seq<int>, roles0: seq<Role>,
                     used: seq<bool>, winners: seq<Node>)
    requires |stakes| == |nodes| == |ids0| == |roles0| > 0 && used == NoneUsed(|stakes|)
    ensures Drawn(stakes, randoms, 0, nodes, ids0, roles0, used, winners, ids0, roles0)
  {
  }

  lemma DrawnMore(stakes: seq<nat>, randoms: seq<nat>, s: nat, nodes: seq<Node>, ids0: seq<int>, roles0: seq<Role>,
                  used: seq<bool>, winners: seq<Node>, ids: seq<int>, roles: seq<Role>)
    requires |stakes| == |nodes| == |ids0| == |roles0| > 0 && s < |randoms| && s < |winners|
    requires Drawn(stakes, randoms, s, nodes, ids0, roles0, used, winners, ids, roles)
    ensures |used| == |ids| == |roles| == |stakes|
    ensures var w := WinnerOf(stakes, used, randoms[s]);
            Drawn(stakes, randoms, s + 1, nodes, ids0, roles0,
                  used[w := true], winners[s := nodes[w]], ids[w := s], roles[w := Winner])
  {
    hide Draws, WinnerOf, LastDraw, IdsAfter, RolesAfter, Marked;
    NextDraw(stakes, randoms, s);
    var ws := Draws(stakes, NoneUsed(|stakes|), randoms[..s]);
    OneMoreDraw(ids0, roles0, ws, WinnerOf(stakes, used, randoms[s]));
  }

  // One iteration of the election: draw, mark, assign, record.
  method ElectOne(nodes: seq<Node>, used: array<bool>, winners: array<Node>, s: nat, random: nat)
    returns (w: nat)
    requires DistinctNodes(nodes) && |nodes| > 0 && used.Length == |nodes| && s < winners.Length
    modifies nodes, used, winners
    ensures w == WinnerOf(Stakes(nodes), old(used[..]), random)
    ensures used[..] == old(used[..])[w := true]
    ensures winners[..] == old(winners[..])[s := nodes[w]]
    ensures ShardIds(nodes) == old(ShardIds(nodes))[w := s]
    ensures Roles(nodes) == old(Roles(nodes))[w := Winner]
  {
    hide WinnerOf;
    w := DrawOne(nodes, used, random);
    used[w] := true;
    nodes[w].AssignShard(s);
    winners[s] := nodes[w];
  }

  // The outcome of an election: the winners are those of the draws, and every
  // node has the shard id and the role the draws give it.
  ghost predicate Elected(nodes: seq<Node>, randoms: seq<nat>, ids0: seq<int>, roles0: seq<Role>, winners: seq<Node>)
    requires |nodes| == |ids0| == |roles0| > 0 && |winners| == |randoms|
    reads nodes
  {
    var ws := Draws(Stakes(nodes), NoneUsed(|nodes|), randoms);
    && (forall s :: 0 <= s < |winners| ==> winners[s] == nodes[ws[s]])
    && ShardIds(nodes) == IdsAfter(ids0, ws)
    && Roles(nodes) == RolesAfter(roles0, ws)
  }

  lemma AllDrawn(randoms: seq<nat>, nodes: seq<Node>, ids0: seq<int>, roles0: seq<Role>, used: seq<bool>, winners: seq<Node>)
    requires |nodes| == |ids0| == |roles0| > 0 && |winners| <= |randoms|
    requires Drawn(Stakes(nodes), randoms, |winners|, nodes, ids0, roles0, used, winners, ShardIds(nodes), Roles(nodes))
    ensures Elected(nodes, randoms[..|winners|], ids0, roles0, winners)
  {
  }

  // Elect one winner for each shard. Too few nodes, or nothing to elect, is
  // refused. A node drawn twice keeps its last shard.
  method ElectWinners(nodes: seq<Node>, numShards: nat, randoms: seq<nat>) returns (r: Option<array<Node>>)
    requires DistinctNodes(nodes) && |randoms| >= numShards
    modifies nodes
    ensures r.None? <==> |nodes| == 0 || numShards == 0 || numShards > |nodes|
    ensures r.None? ==> ShardIds(nodes) == old(ShardIds(nodes)) && Roles(nodes) == old(Roles(nodes))
    ensures r.Some? ==>
              && fresh(r.value) && r.value.Length == numShards
              && Elected(nodes, randoms[..numShards], old(ShardIds(nodes)), old(Roles(nodes)), r.value[..])
  {
    if |nodes| == 0 || numShards == 0 || numShards > |nodes| {
      return None;
    }
    hide Elected;
    var winners := ElectAll(nodes, numShards, randoms);
    r := Some(winners);
  }

  method ElectAll(nodes: seq<Node>, numShards: nat, randoms: seq<nat>) returns (winners: array<Node>)
    requires DistinctNodes(nodes) && 0 < numShards <= |nodes| && |randoms| >= numShards
    modifies nodes
    ensures fresh(winners) && winners.Length == numShards
    ensures Elected(nodes, randoms[..numShards], old(ShardIds(nodes)), old(Roles(nodes)), winners[..])
  {
    hide Drawn, Elected, WinnerOf, ShardIds, Roles;
    winners := new Node[numShards](_ => nodes[0]);
    var used := new bool[|nodes|](_ => false);
    ghost var stakes, ids, roles := Stakes(nodes), ShardIds(nodes), Roles(nodes);
    NothingDrawn(stakes, randoms, nodes, ids, roles, used[..], winners[..]);
    for s := 0 to numShards
      invariant Drawn(stakes, randoms, s, nodes, ids, roles, used[..], winners[..], ShardIds(nodes), Roles(nodes))
    {
      DrawnMore(stakes, randoms, s, nodes, ids, roles, used[..], winners[..], ShardIds(nodes), Roles(nodes));
      var w := ElectOne(nodes, used, winners, s, randoms[s]);
    }
    AllDrawn(randoms, nodes, ids, roles, used[..], winners[..]);
  }
}
