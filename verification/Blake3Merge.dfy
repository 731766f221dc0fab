/**
 The stack of chaining values. However many chunks have been added it holds at
 most two values: the tree of all of them, or the tree of all but the last
 and the last. Folding what is left onto the stack gives the tree of the whole
 input.
 */
module Blake3Merge {
  import opened Arithmetic
  import opened Wire
  import opened Blake3Words
  import opened Blake3Tree

  const STACK_SLOTS := 54

  // The n low bits set: (1 << n) - 1.
  function Mask(n: nat): bv64 {
    if n == 0 then 0 else (Mask(n - 1) << 1) | 1
  }

  // Some of the n low bits of the counter are set.
  predicate LowBits(counter: bv64, n: nat) {
    counter & Mask(n) != 0
  }

  // The merge rule: while some of the low |stack| bits of the counter are set,
  // the new value is joined with the top of the stack; then it is pushed.
  function Merge(comp: Compressor, stack: seq<Words8>, cv: Words8, counter: bv64): seq<Words8>
    requires |stack| < STACK_SLOTS
  {
    var n := |stack|;
    if n > 0 && LowBits(counter, n) then Merge(comp, stack[..n - 1], ParentCv(comp, stack[n - 1], cv), counter)
    else stack + [cv]
  }

  // One turn of the loop, and the end of it.
  lemma MergeTurn(comp: Compressor, rest: seq<Words8>, top: Words8, cv: Words8, counter: bv64)
    requires |rest| + 1 < STACK_SLOTS && LowBits(counter, |rest| + 1)
    ensures Merge(comp, rest + [top], cv, counter) == Merge(comp, rest, ParentCv(comp, top, cv), counter)
  {
    hide Mask, ParentCv;
    assert (rest + [top])[..|rest|] == rest;
  }

  lemma MergeEnd(comp: Compressor, stack: seq<Words8>, cv: Words8, counter: bv64)
    requires |stack| < STACK_SLOTS && (|stack| == 0 || !LowBits(counter, |stack|))
    ensures Merge(comp, stack, cv, counter) == stack + [cv]
  {
    hide Mask, ParentCv;
  }

  // Joining a value with everything on the stack.
  function Fold(comp: Compressor, stack: seq<Words8>, cv: Words8): Words8 {
    var n := |stack|;
    if n == 0 then cv else Fold(comp, stack[..n - 1], ParentCv(comp, stack[n - 1], cv))
  }

  lemma FoldEmpty(comp: Compressor, cv: Words8)
    ensures Fold(comp, [], cv) == cv
  {
    hide ParentCv;
  }

  lemma FoldTurn(comp: Compressor, rest: seq<Words8>, top: Words8, cv: Words8)
    ensures Fold(comp, rest + [top], cv) == Fold(comp, rest, ParentCv(comp, top, cv))
  {
    hide ParentCv;
    assert (rest + [top])[..|rest|] == rest;
  }

  // The chunks before the last, and the last, of a number of full chunks.
  function Init(f: seq<byte>): seq<byte>
    requires |f| >= CHUNK_LEN
  {
    f[..|f| - CHUNK_LEN]
  }

  function Last(f: seq<byte>): seq<byte>
    requires |f| >= CHUNK_LEN
  {
    f[|f| - CHUNK_LEN..]
  }

  // One value stands for all the chunks of f.
  predicate Joined(f: seq<byte>) {
    |f| == CHUNK_LEN || |f| % (2 * CHUNK_LEN) == 0
  }

  // What is on the stack after the full chunks f.
  function Stack(comp: Compressor, f: seq<byte>): (s: seq<Words8>)
    requires |f| % CHUNK_LEN == 0
    ensures |s| <= 2
  {
    if f == [] then []
    else if Joined(f) then [Tree(comp, f)]
    else [Tree(comp, Init(f)), ChunkCv(comp, Last(f), Counter(|f| / CHUNK_LEN - 1))]
  }

  lemma StackStart(comp: Compressor)
    ensures Stack(comp, []) == []
  {
    hide Tree, ChunkCv;
  }

  lemma {:induction false} CounterParity(i: nat)
    ensures Counter(i) & 1 == if i % 2 == 0 then 0 else 1
  {
    if i > 0 {
      CounterParity(i - 1);
    }
  }

  lemma MaskBits(c: bv64)
    ensures Mask(1) == 1 && Mask(2) == 3
    ensures c & 1 != 0 ==> c & 3 != 0
  {
  }

  lemma Halves(n: nat)
    requires n % CHUNK_LEN == 0
    ensures n % (2 * CHUNK_LEN) == if n / CHUNK_LEN % 2 == 0 then 0 else CHUNK_LEN
    ensures n > CHUNK_LEN || n == CHUNK_LEN || n == 0
    ensures n > 0 ==> (n - CHUNK_LEN) / CHUNK_LEN == n / CHUNK_LEN - 1
    ensures n == CHUNK_LEN <==> n / CHUNK_LEN == 1
    ensures (n + CHUNK_LEN) % CHUNK_LEN == 0
  {
  }

  lemma CutJoined(n: nat, l: nat)
    requires n == CHUNK_LEN || (n > 0 && n % (2 * CHUNK_LEN) == 0)
    requires 0 < l <= CHUNK_LEN
    ensures Cut(n + l) == n
  {
    if n > CHUNK_LEN {
      DivModUnique(n + l - 1, 2 * CHUNK_LEN, n / (2 * CHUNK_LEN), l - 1);
    }
  }

  lemma CutPair(n: nat, l: nat)
    requires n > CHUNK_LEN && n % (2 * CHUNK_LEN) == CHUNK_LEN
    requires 0 < l <= CHUNK_LEN
    ensures Cut(n + l) == n - CHUNK_LEN
  {
    DivModUnique(n + l - 1, 2 * CHUNK_LEN, n / (2 * CHUNK_LEN), CHUNK_LEN + l - 1);
  }

  lemma TreeCut(comp: Compressor, x: seq<byte>, c: nat)
    requires |x| > CHUNK_LEN && c == Cut(|x|)
    ensures Tree(comp, x) == ParentCv(comp, Tree(comp, x[..c]), Group(comp, x[c..], c / CHUNK_LEN))
  {
    hide ChunkCv, ParentCv, Counter, Cut, Group;
  }

  // The tree grows by one chunk, full or not.
  lemma TreeJoined(comp: Compressor, f: seq<byte>, l: seq<byte>)
    requires f != [] && |f| % CHUNK_LEN == 0 && Joined(f) && 0 < |l| <= CHUNK_LEN
    ensures Tree(comp, f + l) == ParentCv(comp, Tree(comp, f), ChunkCv(comp, l, Counter(|f| / CHUNK_LEN)))
  {
    hide ChunkCv, ParentCv, Counter, Cut, Tree;
    Halves(|f|);
    CutJoined(|f|, |l|);
    TreeCut(comp, f + l, |f|);
    assert (f + l)[..|f|] == f && (f + l)[|f|..] == l;
  }

  lemma PairParts(f: seq<byte>, l: seq<byte>)
    requires |f| > CHUNK_LEN
    ensures var x, c := f + l, |f| - CHUNK_LEN;
            x[..c] == Init(f) && x[c..][..CHUNK_LEN] == Last(f) && x[c..][CHUNK_LEN..] == l
  {
  }

  lemma PairCut(f: seq<byte>, l: seq<byte>)
    requires f != [] && |f| % CHUNK_LEN == 0 && !Joined(f) && 0 < |l| <= CHUNK_LEN
    ensures var c := |f| - CHUNK_LEN;
            c > 0 && Cut(|f + l|) == c && c / CHUNK_LEN == |f| / CHUNK_LEN - 1
  {
    hide Cut;
    Halves(|f|);
    CutPair(|f|, |l|);
  }

  lemma TreePair(comp: Compressor, f: seq<byte>, l: seq<byte>)
    requires f != [] && |f| % CHUNK_LEN == 0 && !Joined(f) && 0 < |l| <= CHUNK_LEN
    ensures var k := |f| / CHUNK_LEN;
            var pair := ParentCv(comp, ChunkCv(comp, Last(f), Counter(k - 1)), ChunkCv(comp, l, Counter(k)));
            Tree(comp, f + l) == ParentCv(comp, Tree(comp, Init(f)), pair)
  {
    hide ChunkCv, ParentCv, Counter, Cut, Tree, Joined;
    var x, c := f + l, |f| - CHUNK_LEN;
    PairCut(f, l);
    TreeCut(comp, x, c);
    PairParts(f, l);
    var i := c / CHUNK_LEN;
    assert Group(comp, x[c..], i) == ParentCv(comp, ChunkCv(comp, Last(f), Counter(i)), ChunkCv(comp, l, Counter(i + 1)));
  }

  // The three things the merge rule does to a stack of at most two values.
  lemma MergePush(comp: Compressor, s: Words8, cv: Words8, k: bv64)
    requires k & 1 == 0
    ensures Merge(comp, [s], cv, k) == [s, cv]
  {
    MaskBits(k);
    hide ParentCv, Mask;
  }

  lemma MergeOne(comp: Compressor, s: Words8, cv: Words8, k: bv64)
    requires k & 1 != 0
    ensures Merge(comp, [s], cv, k) == [ParentCv(comp, s, cv)]
  {
    MaskBits(k);
    hide ParentCv, Mask;
  }

  lemma MergeTwo(comp: Compressor, s: Words8, t: Words8, cv: Words8, k: bv64)
    requires k & 1 != 0
    ensures Merge(comp, [s, t], cv, k) == [ParentCv(comp, s, ParentCv(comp, t, cv))]
  {
    MaskBits(k);
    hide ParentCv, Mask;
    assert [s, t][..1] == [s];
    MergeOne(comp, s, ParentCv(comp, t, cv), k);
  }

  lemma StackJoined(comp: Compressor, f: seq<byte>)
    requires f != [] && |f| % CHUNK_LEN == 0 && Joined(f)
    ensures Stack(comp, f) == [Tree(comp, f)]
  {
    hide Tree, ChunkCv, Counter;
  }

  lemma StackPair(comp: Compressor, f: seq<byte>)
    requires f != [] && |f| % CHUNK_LEN == 0 && !Joined(f)
    ensures Stack(comp, f) == [Tree(comp, Init(f)), ChunkCv(comp, Last(f), Counter(|f| / CHUNK_LEN - 1))]
  {
    hide Tree, ChunkCv, Counter;
  }

  lemma JoinedNext(f: seq<byte>, c: seq<byte>)
    requires |f| % CHUNK_LEN == 0 && |c| == CHUNK_LEN
    ensures |f + c| % CHUNK_LEN == 0 && |f + c| / CHUNK_LEN == |f| / CHUNK_LEN + 1
    ensures Joined(f + c) <==> f == [] || |f| == CHUNK_LEN || !Joined(f)
  {
    Halves(|f|);
    Halves(|f + c|);
  }

  // Adding one more full chunk by the merge rule keeps the closed form.
  lemma {:induction false} MergeAddsChunk(comp: Compressor, f: seq<byte>, c: seq<byte>)
    requires |f| % CHUNK_LEN == 0 && |c| == CHUNK_LEN
    ensures |f + c| % CHUNK_LEN == 0
    ensures var k := Counter(|f| / CHUNK_LEN);
            Stack(comp, f + c) == Merge(comp, Stack(comp, f), ChunkCv(comp, c, k), k)
  {
    hide ChunkCv, ParentCv, Mask, Tree, Merge, Stack;
    var n := |f| / CHUNK_LEN;
    var k := Counter(n);
    JoinedNext(f, c);
    if f == [] {
      assert f + c == c;
      MergeFirst(comp, c);
    } else {
      CounterParity(n);
      Halves(|f|);
      hide Counter;
      if Joined(f) {
        StackJoined(comp, f);
        TreeJoined(comp, f, c);
        if n == 1 {
          MergeOne(comp, Tree(comp, f), ChunkCv(comp, c, k), k);
          StackJoined(comp, f + c);
        } else {
          MergePush(comp, Tree(comp, f), ChunkCv(comp, c, k), k);
          StackPair(comp, f + c);
          assert Init(f + c) == f && Last(f + c) == c;
        }
      } else {
        StackPair(comp, f);
        TreePair(comp, f, c);
        MergeTwo(comp, Tree(comp, Init(f)), ChunkCv(comp, Last(f), Counter(n - 1)), ChunkCv(comp, c, k), k);
        StackJoined(comp, f + c);
      }
    }
  }

  lemma MergeFirst(comp: Compressor, c: seq<byte>)
    requires |c| == CHUNK_LEN
    ensures Stack(comp, c) == Merge(comp, Stack(comp, []), ChunkCv(comp, c, Counter(0)), Counter(0))
  {
    StackJoined(comp, c);
    hide ChunkCv, ParentCv, Mask, Counter;
  }

  lemma FoldTwo(comp: Compressor, s: Words8, t: Words8, cv: Words8)
    ensures Fold(comp, [s], cv) == ParentCv(comp, s, cv)
    ensures Fold(comp, [s, t], cv) == ParentCv(comp, s, ParentCv(comp, t, cv))
  {
    hide ParentCv;
    assert [s, t] == [s] + [t];
    FoldTurn(comp, [s], t, cv);
    assert Fold(comp, [s], ParentCv(comp, t, cv)) == ParentCv(comp, s, ParentCv(comp, t, cv));
  }

  // Folding the last chunk onto the stack completes the tree.
  lemma {:induction false} FoldCompletes(comp: Compressor, f: seq<byte>, l: seq<byte>)
    requires |f| % CHUNK_LEN == 0 && |l| <= CHUNK_LEN && (l == [] ==> f == [])
    ensures Tree(comp, f + l) == Fold(comp, Stack(comp, f), ChunkCv(comp, l, Counter(|f| / CHUNK_LEN)))
  {
    var last := ChunkCv(comp, l, Counter(|f| / CHUNK_LEN));
    if f == [] {
      assert f + l == l;
      hide ChunkCv, ParentCv, Counter;
    } else {
      hide ChunkCv, ParentCv, Counter, Tree, Stack, Fold;
      if Joined(f) {
        TreeJoined(comp, f, l);
        StackJoined(comp, f);
        FoldTwo(comp, Tree(comp, f), Tree(comp, f), last);
      } else {
        TreePair(comp, f, l);
        StackPair(comp, f);
        FoldTwo(comp, Tree(comp, Init(f)), ChunkCv(comp, Last(f), Counter(|f| / CHUNK_LEN - 1)), last);
      }
    }
  }
}
