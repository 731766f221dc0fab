/**
 The calls of the compression function made for an input, and for the values
 that have gone into the stack of chaining values.
 */
module Blake3Calls {
  import opened Wire
  import opened Blake3Words
  import opened Blake3Tree
  import opened Blake3Merge

  function ChainCalls(comp: Compressor, p: seq<byte>, counter: bv64): set<Input>
    requires |p| % BLOCK_LEN == 0
  {
    if p == [] then {}
    else ChainCalls(comp, p[..|p| - BLOCK_LEN], counter) + {BlockInput(comp, p, counter)}
  }

  function ChunkCalls(comp: Compressor, b: seq<byte>, counter: bv64): set<Input> {
    ChainCalls(comp, b[..Flushed(|b|)], counter) + {ChunkInput(comp, b, counter)}
  }

  function GroupCalls(comp: Compressor, g: seq<byte>, i: nat): set<Input> {
    if |g| <= CHUNK_LEN then ChunkCalls(comp, g, Counter(i))
    else
      ChunkCalls(comp, g[..CHUNK_LEN], Counter(i)) + ChunkCalls(comp, g[CHUNK_LEN..], Counter(i + 1))
      + {GroupInput(comp, g, i)}
  }

  function TreeCalls(comp: Compressor, x: seq<byte>): set<Input>
    decreases |x|
  {
    if |x| <= CHUNK_LEN then ChunkCalls(comp, x, Counter(0))
    else
      var c := Cut(|x|);
      TreeCalls(comp, x[..c]) + GroupCalls(comp, x[c..], c / CHUNK_LEN) + {TreeInput(comp, x)}
  }

  function HashCalls(comp: Compressor, x: seq<byte>): set<Input> {
    TreeCalls(comp, x) + {RootInput(Tree(comp, x))}
  }

  // The call whose output is the value of a group or of a tree.
  function GroupInput(comp: Compressor, g: seq<byte>, i: nat): (a: Input)
    ensures Group(comp, g, i) == comp(a)
    ensures |g| > CHUNK_LEN <==> a.flags == PARENT
  {
    if |g| <= CHUNK_LEN then ChunkInput(comp, g, Counter(i))
    else ParentInput(ChunkCv(comp, g[..CHUNK_LEN], Counter(i)), ChunkCv(comp, g[CHUNK_LEN..], Counter(i + 1)))
  }

  function TreeInput(comp: Compressor, x: seq<byte>): (a: Input)
    ensures Tree(comp, x) == comp(a)
    ensures |x| > CHUNK_LEN <==> a.flags == PARENT
  {
    if |x| <= CHUNK_LEN then ChunkInput(comp, x, Counter(0))
    else
      var c := Cut(|x|);
      ParentInput(Tree(comp, x[..c]), Group(comp, x[c..], c / CHUNK_LEN))
  }

  // ------------------------------------------------------------------
  // The calls made by the merge rule and by folding the stack.

  function MergeCalls(comp: Compressor, stack: seq<Words8>, cv: Words8, counter: bv64): set<Input>
    requires |stack| < STACK_SLOTS
  {
    var n := |stack|;
    if n > 0 && LowBits(counter, n) then
      var a := ParentInput(stack[n - 1], cv);
      {a} + MergeCalls(comp, stack[..n - 1], comp(a), counter)
    else {}
  }

  lemma MergeCallsTurn(comp: Compressor, rest: seq<Words8>, top: Words8, cv: Words8, counter: bv64)
    requires |rest| + 1 < STACK_SLOTS && LowBits(counter, |rest| + 1)
    ensures MergeCalls(comp, rest + [top], cv, counter)
         == {ParentInput(top, cv)} + MergeCalls(comp, rest, ParentCv(comp, top, cv), counter)
  {
    hide Mask, ParentInput;
    assert (rest + [top])[..|rest|] == rest;
  }

  lemma MergeCallsEnd(comp: Compressor, stack: seq<Words8>, cv: Words8, counter: bv64)
    requires |stack| < STACK_SLOTS && (|stack| == 0 || !LowBits(counter, |stack|))
    ensures MergeCalls(comp, stack, cv, counter) == {}
  {
    hide Mask, ParentInput;
  }

  function FoldCalls(comp: Compressor, stack: seq<Words8>, cv: Words8): set<Input> {
    var n := |stack|;
    if n == 0 then {}
    else
      var a := ParentInput(stack[n - 1], cv);
      {a} + FoldCalls(comp, stack[..n - 1], comp(a))
  }

  lemma FoldCallsTurn(comp: Compressor, rest: seq<Words8>, top: Words8, cv: Words8)
    ensures FoldCalls(comp, rest + [top], cv) == {ParentInput(top, cv)} + FoldCalls(comp, rest, ParentCv(comp, top, cv))
  {
    hide ParentInput;
    assert (rest + [top])[..|rest|] == rest;
  }

  lemma FoldCallsEmpty(comp: Compressor, cv: Words8)
    ensures FoldCalls(comp, [], cv) == {}
  {
    hide ParentInput;
  }

  // The calls behind the values on the stack after the full chunks f.
  function StackCalls(comp: Compressor, f: seq<byte>): set<Input>
    requires |f| % CHUNK_LEN == 0
  {
    if f == [] then {}
    else if Joined(f) then TreeCalls(comp, f)
    else TreeCalls(comp, Init(f)) + ChunkCalls(comp, Last(f), Counter(|f| / CHUNK_LEN - 1))
  }

  // ------------------------------------------------------------------
  // The calls for one chunk more.

  lemma TreeCallsCut(comp: Compressor, x: seq<byte>, c: nat)
    requires |x| > CHUNK_LEN && c == Cut(|x|)
    ensures TreeCalls(comp, x)
         == TreeCalls(comp, x[..c]) + GroupCalls(comp, x[c..], c / CHUNK_LEN)
            + {ParentInput(Tree(comp, x[..c]), Group(comp, x[c..], c / CHUNK_LEN))}
  {
    hide ChunkCv, ParentCv, Counter, Cut, Group, GroupCalls, ChunkCalls, ParentInput, Tree;
  }

  lemma TreeCallsJoined(comp: Compressor, f: seq<byte>, l: seq<byte>)
    requires f != [] && |f| % CHUNK_LEN == 0 && Joined(f) && 0 < |l| <= CHUNK_LEN
    ensures var k := Counter(|f| / CHUNK_LEN);
            TreeCalls(comp, f + l)
            == TreeCalls(comp, f) + ChunkCalls(comp, l, k) + {ParentInput(Tree(comp, f), ChunkCv(comp, l, k))}
  {
    hide ChunkCv, ParentCv, Counter, Cut, Tree, TreeCalls, ChunkCalls, ParentInput, GroupInput;
    Halves(|f|);
    CutJoined(|f|, |l|);
    TreeCallsCut(comp, f + l, |f|);
    assert (f + l)[..|f|] == f && (f + l)[|f|..] == l;
  }

  lemma TreeCallsPair(comp: Compressor, f: seq<byte>, l: seq<byte>)
    requires f != [] && |f| % CHUNK_LEN == 0 && !Joined(f) && 0 < |l| <= CHUNK_LEN
    ensures var k := |f| / CHUNK_LEN;
            var a, b := ChunkCv(comp, Last(f), Counter(k - 1)), ChunkCv(comp, l, Counter(k));
            TreeCalls(comp, f + l)
            == TreeCalls(comp, Init(f))
               + (ChunkCalls(comp, Last(f), Counter(k - 1)) + ChunkCalls(comp, l, Counter(k)) + {ParentInput(a, b)})
               + {ParentInput(Tree(comp, Init(f)), ParentCv(comp, a, b))}
  {
    hide ChunkCv, ParentCv, Counter, Cut, Tree, TreeCalls, ChunkCalls, ParentInput, Joined;
    var x, c := f + l, |f| - CHUNK_LEN;
    PairCut(f, l);
    TreeCallsCut(comp, x, c);
    PairParts(f, l);
  }

  lemma StackCallsJoined(comp: Compressor, f: seq<byte>)
    requires f != [] && |f| % CHUNK_LEN == 0 && Joined(f)
    ensures StackCalls(comp, f) == TreeCalls(comp, f)
  {
    hide TreeCalls, ChunkCalls, Counter;
  }

  lemma StackCallsPair(comp: Compressor, f: seq<byte>)
    requires f != [] && |f| % CHUNK_LEN == 0 && !Joined(f)
    ensures StackCalls(comp, f)
         == TreeCalls(comp, Init(f)) + ChunkCalls(comp, Last(f), Counter(|f| / CHUNK_LEN - 1))
  {
    hide TreeCalls, ChunkCalls, Counter;
  }

  lemma StackCallsFirst(comp: Compressor, c: seq<byte>)
    requires |c| == CHUNK_LEN
    ensures StackCalls(comp, c) == ChunkCalls(comp, c, Counter(0))
  {
    StackCallsJoined(comp, c);
    hide ChunkCalls, Counter;
  }

  lemma NoCalls(comp: Compressor)
    ensures StackCalls(comp, []) == {}
  {
  }

  lemma OneChunkCalls(comp: Compressor, l: seq<byte>)
    requires |l| <= CHUNK_LEN
    ensures TreeCalls(comp, l) == ChunkCalls(comp, l, Counter(0))
  {
    hide ChunkCalls, Counter, Tree, ParentInput, ChunkInput;
  }

  // What the merge rule does to a stack of at most two values.
  lemma MergeCallsOne(comp: Compressor, s: Words8, cv: Words8, k: bv64)
    ensures MergeCalls(comp, [s], cv, k) == if k & 1 == 0 then {} else {ParentInput(s, cv)}
  {
    MaskBits(k);
    hide Mask, ParentInput;
    if k & 1 == 0 {
      MergeCallsEnd(comp, [s], cv, k);
    } else {
      assert [] + [s] == [s];
      MergeCallsTurn(comp, [], s, cv, k);
      MergeCallsEnd(comp, [], ParentCv(comp, s, cv), k);
    }
  }

  lemma MergeCallsTwo(comp: Compressor, s: Words8, t: Words8, cv: Words8, k: bv64)
    requires k & 1 != 0
    ensures MergeCalls(comp, [s, t], cv, k) == {ParentInput(t, cv)} + {ParentInput(s, ParentCv(comp, t, cv))}
  {
    MaskBits(k);
    hide Mask, ParentInput, MergeCalls;
    assert [s] + [t] == [s, t];
    MergeCallsTurn(comp, [s], t, cv, k);
    MergeCallsOne(comp, s, ParentCv(comp, t, cv), k);
  }

  // Adding one more full chunk makes exactly the calls that the closed form of
  // the stack grows by.
  lemma {:induction false} MergeCallsAddChunk(comp: Compressor, f: seq<byte>, c: seq<byte>)
    requires |f| % CHUNK_LEN == 0 && |c| == CHUNK_LEN
    ensures |f + c| % CHUNK_LEN == 0
    ensures var k := Counter(|f| / CHUNK_LEN);
            StackCalls(comp, f + c)
            == StackCalls(comp, f) + ChunkCalls(comp, c, k) + MergeCalls(comp, Stack(comp, f), ChunkCv(comp, c, k), k)
  {
    hide ChunkCv, ParentCv, ParentInput, Mask, Tree, MergeCalls, Stack, StackCalls, TreeCalls, ChunkCalls;
    var n := |f| / CHUNK_LEN;
    var k := Counter(n);
    JoinedNext(f, c);
    if f == [] {
      assert f + c == c;
      StackCallsFirst(comp, c);
      NoCalls(comp);
      StackStart(comp);
      MergeCallsEnd(comp, [], ChunkCv(comp, c, k), k);
    } else {
      CounterParity(n);
      Halves(|f|);
      hide Counter;
      if Joined(f) {
        StackJoined(comp, f);
        StackCallsJoined(comp, f);
        TreeCallsJoined(comp, f, c);
        MergeCallsOne(comp, Tree(comp, f), ChunkCv(comp, c, k), k);
        if n == 1 {
          StackCallsJoined(comp, f + c);
        } else {
          StackCallsPair(comp, f + c);
          assert Init(f + c) == f && Last(f + c) == c;
        }
      } else {
        StackPair(comp, f);
        StackCallsPair(comp, f);
        TreeCallsPair(comp, f, c);
        MergeCallsTwo(comp, Tree(comp, Init(f)), ChunkCv(comp, Last(f), Counter(n - 1)), ChunkCv(comp, c, k), k);
        StackCallsJoined(comp, f + c);
      }
    }
  }

  lemma FoldCallsTwo(comp: Compressor, s: Words8, t: Words8, cv: Words8)
    ensures FoldCalls(comp, [s], cv) == {ParentInput(s, cv)}
    ensures FoldCalls(comp, [s, t], cv) == {ParentInput(t, cv)} + {ParentInput(s, ParentCv(comp, t, cv))}
  {
    hide ParentInput, FoldCalls;
    assert [] + [s] == [s] && [s] + [t] == [s, t];
    FoldCallsTurn(comp, [], s, cv);
    FoldCallsEmpty(comp, ParentCv(comp, s, cv));
    FoldCallsTurn(comp, [s], t, cv);
    FoldCallsTurn(comp, [], s, ParentCv(comp, t, cv));
    FoldCallsEmpty(comp, ParentCv(comp, s, ParentCv(comp, t, cv)));
  }

  // Folding the last chunk onto the stack completes the calls for the tree.
  lemma {:induction false} FoldCallsComplete(comp: Compressor, f: seq<byte>, l: seq<byte>)
    requires |f| % CHUNK_LEN == 0 && |l| <= CHUNK_LEN && (l == [] ==> f == [])
    ensures var k := Counter(|f| / CHUNK_LEN);
            TreeCalls(comp, f + l)
            == StackCalls(comp, f) + ChunkCalls(comp, l, k) + FoldCalls(comp, Stack(comp, f), ChunkCv(comp, l, k))
  {
    hide ChunkCv, ParentCv, ParentInput, Tree, FoldCalls, Stack, ChunkCalls, StackCalls, TreeCalls;
    var n := |f| / CHUNK_LEN;
    var last := ChunkCv(comp, l, Counter(n));
    if f == [] {
      assert f + l == l;
      NoCalls(comp);
      OneChunkCalls(comp, l);
      StackStart(comp);
      FoldCallsEmpty(comp, last);
    } else {
      hide Counter;
      if Joined(f) {
        StackJoined(comp, f);
        StackCallsJoined(comp, f);
        TreeCallsJoined(comp, f, l);
        FoldCallsTwo(comp, Tree(comp, f), Tree(comp, f), last);
      } else {
        StackPair(comp, f);
        StackCallsPair(comp, f);
        TreeCallsPair(comp, f, l);
        FoldCallsTwo(comp, Tree(comp, Init(f)), ChunkCv(comp, Last(f), Counter(n - 1)), last);
      }
    }
  }
}
