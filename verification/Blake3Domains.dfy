/**
 The kinds of calls the hash makes, told apart by their flags, and what small
 inputs come to, written out. Both hold for every compression function.
 */
module Blake3Domains {
  import opened Arithmetic
  import opened Wire
  import opened Blake3Words
  import opened Blake3Tree
  import opened Blake3Calls

  // ------------------------------------------------------------------
  // Calls inside a chunk, calls of parents and root calls never coincide.

  lemma {:induction false} ChainCallFlags(comp: Compressor, p: seq<byte>, counter: bv64, a: Input)
    requires |p| % BLOCK_LEN == 0 && a in ChainCalls(comp, p, counter)
    ensures a.flags == 0 || a.flags == 1
  {
    if a in ChainCalls(comp, p[..|p| - BLOCK_LEN], counter) {
      ChainCallFlags(comp, p[..|p| - BLOCK_LEN], counter, a);
    }
  }

  lemma ChunkCallFlags(comp: Compressor, b: seq<byte>, counter: bv64, a: Input)
    requires a in ChunkCalls(comp, b, counter)
    ensures a.flags == 0 || a.flags == 1 || a.flags == 2 || a.flags == 3
  {
    if a in ChainCalls(comp, b[..Flushed(|b|)], counter) {
      ChainCallFlags(comp, b[..Flushed(|b|)], counter, a);
    }
  }

  lemma {:induction false} ParentIsNoChunkCall(comp: Compressor, b: seq<byte>, counter: bv64, l: Words8, r: Words8)
    ensures ParentInput(l, r) !in ChunkCalls(comp, b, counter)
  {
    var a := ParentInput(l, r);
    if a in ChunkCalls(comp, b, counter) {
      ChunkCallFlags(comp, b, counter, a);
    }
  }

  lemma {:induction false} RootIsNoChunkCall(comp: Compressor, b: seq<byte>, counter: bv64, t: Words8)
    ensures RootInput(t) !in ChunkCalls(comp, b, counter)
  {
    var a := RootInput(t);
    if a in ChunkCalls(comp, b, counter) {
      ChunkCallFlags(comp, b, counter, a);
    }
  }

  lemma RootIsNoParent(t: Words8, l: Words8, r: Words8)
    ensures RootInput(t) != ParentInput(l, r)
  {
  }

  lemma RootIsNoGroupCall(comp: Compressor, g: seq<byte>, i: nat, t: Words8)
    ensures RootInput(t) !in GroupCalls(comp, g, i)
  {
    hide ChunkCalls, RootInput, ParentInput, ChunkCv, Counter;
    if |g| <= CHUNK_LEN {
      RootIsNoChunkCall(comp, g, Counter(i), t);
    } else {
      var l, r := g[..CHUNK_LEN], g[CHUNK_LEN..];
      RootIsNoChunkCall(comp, l, Counter(i), t);
      RootIsNoChunkCall(comp, r, Counter(i + 1), t);
      RootIsNoParent(t, ChunkCv(comp, l, Counter(i)), ChunkCv(comp, r, Counter(i + 1)));
    }
  }

  // No call made for a tree, of whatever input, is a root call.
  lemma {:induction false} RootIsNoTreeCall(comp: Compressor, x: seq<byte>, t: Words8)
    ensures RootInput(t) !in TreeCalls(comp, x)
    decreases |x|
  {
    hide ChunkCalls, GroupCalls, RootInput, ParentInput, Group, Counter, Cut;
    if |x| <= CHUNK_LEN {
      RootIsNoChunkCall(comp, x, Counter(0), t);
    } else {
      var c := Cut(|x|);
      RootIsNoTreeCall(comp, x[..c], t);
      RootIsNoGroupCall(comp, x[c..], c / CHUNK_LEN, t);
      RootIsNoParent(t, Tree(comp, x[..c]), Group(comp, x[c..], c / CHUNK_LEN));
    }
  }

  // ------------------------------------------------------------------
  // Small inputs.

  lemma LenValue(n: nat)
    requires n <= 64
    ensures Len(n) as nat == n
  {
    ByteAfterValue(n);
  }

  lemma OneBlock(comp: Compressor, x: seq<byte>, counter: bv64)
    requires |x| <= 64
    ensures ChunkCv(comp, x, counter) == comp(Input(IV, x + Zeros(64 - |x|), Len(|x|), counter, 3))
  {
    hide Len;
    assert x[..0] == [] && x[0..] == x;
  }

  lemma ThreeBlocks(comp: Compressor, x: Bytes64, y: Bytes64, z: seq<byte>, counter: bv64)
    requires 0 < |z| <= 64
    ensures var first := comp(Input(IV, x, 64, counter, 1));
            var second := comp(Input(first, y, 64, counter, 0));
            ChunkCv(comp, x + y + z, counter) == comp(Input(second, z + Zeros(64 - |z|), Len(|z|), counter, 2))
  {
    hide Len;
    var b := x + y + z;
    assert Flushed(|b|) == 128 && b[..128] == x + y && b[128..] == z;
    assert (x + y)[..64] == x && (x + y)[64..] == y;
    assert x[..0] == [] && x[0..] == x;
    assert Chain(comp, [], counter) == IV;
    var first := comp(Input(IV, x, 64, counter, 1));
    assert Chain(comp, x, counter) == first;
    assert Chain(comp, x + y, counter) == comp(Input(first, y, 64, counter, 0));
  }

  lemma TwoChunks(comp: Compressor, x: seq<byte>, y: seq<byte>)
    requires |x| == 1024 && 0 < |y| <= 1024
    ensures Tree(comp, x + y) == comp(Input(IV, BytesOf(ChunkCv(comp, x, 0)) + BytesOf(ChunkCv(comp, y, 1)), 64, 0, 4))
  {
    hide ChunkCv, BytesOf;
    var b := x + y;
    assert b[..1024] == x && b[1024..] == y;
    assert Counter(0) == 0 && Counter(1) == 1;
  }

  // The hash of a tree value.
  lemma RootOf(comp: Compressor, x: seq<byte>)
    ensures Hash(comp, x) == BytesOf(comp(Input(IV, BytesOf(Tree(comp, x)) + Zeros(32), 32, 0, 8)))
  {
    hide Tree, BytesOf;
  }

  // An input of exactly one block is hashed by two calls.
  lemma {:induction false} HashOfBlock(comp: Compressor, x: Bytes64)
    ensures var leaf := comp(Input(IV, x, 64, 0, 3));
            Hash(comp, x) == BytesOf(comp(Input(IV, BytesOf(leaf) + Zeros(32), 32, 0, 8)))
  {
    OneBlock(comp, x, Counter(0));
    FullLen();
    RootOf(comp, x);
    assert Counter(0) == 0;
    assert x + Zeros(0) == x;
    hide ChunkCv, BytesOf, Hash, Len;
  }

  lemma FullLen()
    ensures Len(64) == 64
  {
    ByteAfterValue(64);
    assert (Len(64) as nat) as byte == Len(64);
  }
}
