/**
 The incremental hasher. Bytes are collected in a chunk buffer that is flushed
 only when more input arrives; the chaining values of the chunks go on a stack
 kept in a byte array. However the input is cut into pieces, the digest is the
 hash of their concatenation.
 */
module Blake3Hasher {
  import opened Arithmetic
  import opened Wire
  import opened Blake3Words
  import opened Blake3Compress
  import opened Blake3Tree
  import opened Blake3Merge
  import opened Blake3Calls
  import opened Blake3Chunk
  import opened Blake3Bytes

  method JoinParents(left: Words8, right: Words8, ghost calls: set<Input>) returns (r: Words8, ghost made: set<Input>)
    ensures r == ParentCv(Cv, left, right)
    ensures made == calls + {ParentInput(left, right)}
  {
    hide Cv, BytesOf;
    var block := new byte[BLOCK_LEN](_ => 0);
    StoreWords(block, 0, left);
    StoreWords(block, CV_BYTES, right);
    assert block[..] == BytesOf(left) + BytesOf(right);
    r, made := CompressCv(IV, block[..], FULL, 0, PARENT, calls);
  }

  method CompressRoot(cv: Words8, ghost calls: set<Input>) returns (words: Words8, ghost made: set<Input>)
    ensures words == Cv(RootInput(cv))
    ensures made == calls + {RootInput(cv)}
  {
    hide Cv, BytesOf;
    var block := new byte[BLOCK_LEN](_ => 0);
    StoreWords(block, 0, cv);
    assert block[..] == BytesOf(cv) + Zeros(32);
    words, made := CompressCv(IV, block[..], 32, 0, ROOT, calls);
  }

  method ZeroBuffer(n: nat) returns (a: array<byte>)
    ensures fresh(a) && a.Length == n && a[..] == Zeros(n)
  {
    a := new byte[n](_ => 0);
  }

  method HashChunk(bytes: seq<byte>, counter: bv64) returns (cv: Words8, ghost made: set<Input>)
    requires |bytes| <= CHUNK_LEN
    ensures cv == ChunkCv(Cv, bytes, counter)
    ensures made == ChunkCalls(Cv, bytes, counter)
  {
    hide Cv, ChunkCv, ChunkCalls;
    var cs := new ChunkState(counter);
    cs.Update(bytes);
    assert cs.contents == bytes;
    cv, made := cs.Output();
  }

  // ------------------------------------------------------------------
  // What the hasher's fields stand for.

  // The bytes given so far are those of some full chunks, followed by the
  // bytes in the buffer; counter, stack and calls are those of the chunks.
  ghost predicate Represents(contents: seq<byte>, calls: set<Input>, buffered: seq<byte>, counter: bv64, cvs: seq<Words8>) {
    && |buffered| <= |contents|
    && var f := contents[..|contents| - |buffered|];
    && contents == f + buffered
    && |f| % CHUNK_LEN == 0
    && counter == Counter(|f| / CHUNK_LEN)
    && cvs == Stack(Cv, f)
    && calls == StackCalls(Cv, f)
  }

  lemma RepresentsNothing()
    ensures Represents([], {}, [], Counter(0), [])
  {
    StackStart(Cv);
    NoCalls(Cv);
    hide Cv, Stack, StackCalls, Counter;
  }

  lemma RepresentsMore(contents: seq<byte>, calls: set<Input>, buffered: seq<byte>, counter: bv64, cvs: seq<Words8>, bytes: seq<byte>)
    requires Represents(contents, calls, buffered, counter, cvs)
    ensures Represents(contents + bytes, calls, buffered + bytes, counter, cvs)
  {
    hide Cv, Stack, StackCalls, Counter;
    var f := contents[..|contents| - |buffered|];
    assert (contents + bytes)[..|contents + bytes| - |buffered + bytes|] == f;
  }

  // What adding a full chunk c to the chunks f comes to.
  lemma ChunkAdded(f: seq<byte>, c: seq<byte>, counter: bv64)
    requires |f| % CHUNK_LEN == 0 && |c| == CHUNK_LEN && counter == Counter(|f| / CHUNK_LEN)
    ensures |f + c| % CHUNK_LEN == 0 && Next(counter) == Counter(|f + c| / CHUNK_LEN)
    ensures Merge(Cv, Stack(Cv, f), ChunkCv(Cv, c, counter), counter) == Stack(Cv, f + c)
    ensures StackCalls(Cv, f) + ChunkCalls(Cv, c, counter) + MergeCalls(Cv, Stack(Cv, f), ChunkCv(Cv, c, counter), counter)
         == StackCalls(Cv, f + c)
  {
    hide Cv, Merge, MergeCalls, Stack, StackCalls, ChunkCv, ChunkCalls, Next;
    MergeAddsChunk(Cv, f, c);
    MergeCallsAddChunk(Cv, f, c);
    JoinedNext(f, c);
  }

  lemma RepresentsFlushed(contents: seq<byte>, calls: set<Input>, c: seq<byte>, counter: bv64, cvs: seq<Words8>)
    requires Represents(contents, calls, c, counter, cvs) && |c| == CHUNK_LEN
    ensures |cvs| <= 2
    ensures var cv := ChunkCv(Cv, c, counter);
            Represents(contents, calls + ChunkCalls(Cv, c, counter) + MergeCalls(Cv, cvs, cv, counter),
                       [], Next(counter), Merge(Cv, cvs, cv, counter))
  {
    hide Cv, Merge, MergeCalls, Stack, StackCalls, ChunkCv, ChunkCalls, Next, Counter;
    ChunkAdded(contents[..|contents| - |c|], c, counter);
    assert contents[..|contents| - 0] == contents;
  }

  lemma RepresentsFolded(contents: seq<byte>, calls: set<Input>, l: seq<byte>, counter: bv64, cvs: seq<Words8>)
    requires Represents(contents, calls, l, counter, cvs) && |l| <= CHUNK_LEN && (l == [] ==> contents == [])
    ensures var cv := ChunkCv(Cv, l, counter);
            && Fold(Cv, cvs, cv) == Tree(Cv, contents)
            && calls + ChunkCalls(Cv, l, counter) + FoldCalls(Cv, cvs, cv) == TreeCalls(Cv, contents)
  {
    var f := contents[..|contents| - |l|];
    hide Cv, Fold, FoldCalls, Stack, StackCalls, ChunkCv, ChunkCalls, Tree, TreeCalls, Counter;
    FoldCompletes(Cv, f, l);
    FoldCallsComplete(Cv, f, l);
  }

  class Hasher {
    const chunkBuf: array<byte>
    const cvStack: array<byte>
    var cvStackLen: nat
    var chunkCounter: bv64
    var bufLen: nat
    // Every byte given so far, and every call of compress.
    ghost var contents: seq<byte>
    ghost var calls: set<Input>

    ghost predicate Fields()
      reads this
    {
      && chunkBuf.Length == CHUNK_LEN && cvStack.Length == STACK_SLOTS * CV_BYTES && chunkBuf != cvStack
      && bufLen <= CHUNK_LEN && cvStackLen <= STACK_SLOTS
    }

    // The chaining values on the stack, bottom first.
    ghost function Cvs(): (s: seq<Words8>)
      requires Fields()
      reads this, cvStack
      ensures |s| == cvStackLen
    {
      Slots(cvStack[..], cvStackLen)
    }

    ghost predicate ValidBuf()
      reads this, chunkBuf, cvStack
    {
      Fields() && Represents(contents, calls, chunkBuf[..bufLen], chunkCounter, Cvs())
    }

    // The buffer is emptied only to make room.
    ghost predicate Valid()
      reads this, chunkBuf, cvStack
    {
      ValidBuf() && (bufLen == 0 ==> contents == [])
    }

    constructor ()
      ensures Valid() && fresh(chunkBuf) && fresh(cvStack) && contents == []
    {
      hide Represents, Counter, Slot, Slots;
      var zeros := ZeroBuffer(CHUNK_LEN);
      chunkBuf := zeros;
      cvStack := new byte[STACK_SLOTS * CV_BYTES];
      cvStackLen := 0;
      chunkCounter := Counter(0); // 0
      bufLen := 0;
      contents := [];
      calls := {};
      new;
      RepresentsNothing();
      assert Cvs() == [] && chunkBuf[..0] == [];
    }

    method PushCv(cv: Words8)
      requires Fields() && cvStackLen < STACK_SLOTS
      modifies this`cvStackLen, cvStack
      ensures Fields() && Cvs() == old(Cvs()) + [cv]
    {
      StoreSlot(cvStack, cvStackLen, cv);
      cvStackLen := cvStackLen + 1;
    }

    method PopCv() returns (cv: Words8)
      requires Fields() && cvStackLen > 0
      modifies this`cvStackLen
      ensures Fields() && old(Cvs()) == Cvs() + [cv]
    {
      hide Slot;
      cvStackLen := cvStackLen - 1;
      cv := LoadSlot(cvStack, cvStackLen);
    }

    method AddChunkCv(newCv: Words8, counter: bv64, ghost calls: set<Input>) returns (ghost made: set<Input>)
      requires Fields() && cvStackLen < STACK_SLOTS
      modifies this`cvStackLen, cvStack
      ensures Fields() && Cvs() == Merge(Cv, old(Cvs()), newCv, counter)
      ensures made == calls + MergeCalls(Cv, old(Cvs()), newCv, counter)
    {
      hide Cv, ParentCv, ParentInput, Slots, LowBits, Merge, MergeCalls;
      var cv := newCv;
      made := calls;
      while cvStackLen > 0 && LowBits(counter, cvStackLen)
        invariant Fields() && cvStackLen < STACK_SLOTS
        invariant Merge(Cv, Cvs(), cv, counter) == Merge(Cv, old(Cvs()), newCv, counter)
        invariant made + MergeCalls(Cv, Cvs(), cv, counter) == calls + MergeCalls(Cv, old(Cvs()), newCv, counter)
        decreases cvStackLen
      {
        var left := PopCv();
        MergeTurn(Cv, Cvs(), left, cv, counter);
        MergeCallsTurn(Cv, Cvs(), left, cv, counter);
        cv, made := JoinParents(left, cv, made);
      }
      MergeEnd(Cv, Cvs(), cv, counter);
      MergeCallsEnd(Cv, Cvs(), cv, counter);
      PushCv(cv);
    }

    method FlushChunk()
      requires ValidBuf() && bufLen == CHUNK_LEN
      modifies this, chunkBuf, cvStack
      ensures ValidBuf() && bufLen == 0 && contents == old(contents)
    {
      hide Represents, Cv, Merge, MergeCalls, ChunkCv, ChunkCalls, Next, Slot, Slots;
      ghost var c, cvs := chunkBuf[..], Cvs();
      assert chunkBuf[..bufLen] == c;
      RepresentsFlushed(contents, calls, c, chunkCounter, cvs);
      var cv;
      ghost var made;
      cv, made := HashChunk(chunkBuf[..], chunkCounter);
      calls := AddChunkCv(cv, chunkCounter, calls + made);
      chunkCounter := Next(chunkCounter);
      bufLen := 0;
      assert chunkBuf[..0] == [];
    }

    method Append(bytes: seq<byte>)
      requires ValidBuf() && bufLen + |bytes| <= CHUNK_LEN
      modifies this, chunkBuf
      ensures ValidBuf() && bufLen == old(bufLen) + |bytes| && contents == old(contents) + bytes
    {
      hide Represents, Slot, Slots;
      RepresentsMore(contents, calls, chunkBuf[..bufLen], chunkCounter, Cvs(), bytes);
      bufLen := CopyAt(chunkBuf, bufLen, bytes);
      contents := contents + bytes;
    }

    method Update(input: seq<byte>)
      requires Valid()
      modifies this, chunkBuf, cvStack
      ensures Valid() && contents == old(contents) + input
    {
      hide Represents, Cvs;
      var pos := 0;
      while pos < |input|
        invariant pos <= |input| && Valid() && contents == old(contents) + input[..pos]
      {
        if bufLen == CHUNK_LEN {
          FlushChunk();
        }
        var take := Min(|input| - pos, CHUNK_LEN - bufLen);
        Append(input[pos..pos + take]);
        assert input[..pos + take] == input[..pos] + input[pos..pos + take];
        pos := pos + take;
      }
      assert input[..pos] == input;
    }

    // The chaining value of the tree: the last chunk folded onto a copy of the
    // stack, of which only the length changes.
    method FoldAll() returns (cv: Words8, ghost made: set<Input>)
      requires Valid()
      ensures cv == Tree(Cv, contents)
      ensures made == TreeCalls(Cv, contents)
    {
      hide Represents, Cv, ParentCv, ParentInput, ChunkCv, ChunkCalls, Tree, TreeCalls, Fold, FoldCalls, Slot;
      RepresentsFolded(contents, calls, chunkBuf[..bufLen], chunkCounter, Cvs());
      cv, made := HashChunk(chunkBuf[..bufLen], chunkCounter);
      made := calls + made;
      ghost var last, before := cv, made;
      var depth: nat := cvStackLen;
      while depth > 0
        invariant depth <= cvStackLen
        invariant Fold(Cv, Slots(cvStack[..], depth), cv) == Fold(Cv, Cvs(), last)
        invariant made + FoldCalls(Cv, Slots(cvStack[..], depth), cv) == before + FoldCalls(Cv, Cvs(), last)
      {
        depth := depth - 1;
        var left := LoadSlot(cvStack, depth);
        assert Slots(cvStack[..], depth + 1) == Slots(cvStack[..], depth) + [left];
        FoldTurn(Cv, Slots(cvStack[..], depth), left, cv);
        FoldCallsTurn(Cv, Slots(cvStack[..], depth), left, cv);
        cv, made := JoinParents(left, cv, made);
      }
      FoldEmpty(Cv, cv);
      FoldCallsEmpty(Cv, cv);
    }

    method Finalize(out: array<byte>, outLen: nat) returns (ghost made: set<Input>)
      requires Valid() && outLen <= out.Length && out != chunkBuf && out != cvStack
      modifies out
      ensures Valid()
      ensures out[..outLen] == Digest(Hash(Cv, contents), outLen)
      ensures out[outLen..] == old(out[outLen..])
      ensures made == HashCalls(Cv, contents)
    {
      hide Represents, Cv, Tree, TreeCalls, BytesOf, RootInput, Digest;
      var cv, words;
      cv, made := FoldAll();
      words, made := CompressRoot(cv, made);
      WriteDigest(out, words, outLen);
    }
  }

  function Flatten(pieces: seq<seq<byte>>): seq<byte> {
    if pieces == [] then [] else Flatten(pieces[..|pieces| - 1]) + pieces[|pieces| - 1]
  }

  // Any way of cutting an input into pieces gives the digest of the whole.
  method HashPieces(pieces: seq<seq<byte>>, outLen: nat) returns (out: array<byte>, ghost made: set<Input>)
    ensures fresh(out) && out[..] == Digest(Hash(Cv, Flatten(pieces)), outLen)
    ensures made == HashCalls(Cv, Flatten(pieces))
  {
    hide Represents, Cv, Hash, HashCalls, Digest;
    var hasher := new Hasher();
    for i := 0 to |pieces|
      invariant hasher.Valid() && hasher.contents == Flatten(pieces[..i])
      invariant fresh(hasher) && fresh(hasher.chunkBuf) && fresh(hasher.cvStack)
    {
      hasher.Update(pieces[i]);
      assert pieces[..i + 1][..i] == pieces[..i];
    }
    assert pieces[..|pieces|] == pieces;
    out := new byte[outLen](_ => 0);
    made := hasher.Finalize(out, outLen);
    assert out[..outLen] == out[..];
  }

  // blake3_truncated; blake3 is the case of 32 bytes.
  method Truncated(input: seq<byte>, outLen: nat) returns (out: array<byte>, ghost made: set<Input>)
    ensures fresh(out) && out[..] == Digest(Hash(Cv, input), outLen)
    ensures made == HashCalls(Cv, input)
  {
    hide Represents, Cv, Hash, HashCalls, Digest;
    var hasher := new Hasher();
    hasher.Update(input);
    assert hasher.contents == input;
    out := new byte[outLen](_ => 0);
    made := hasher.Finalize(out, outLen);
    assert out[..outLen] == out[..];
  }
}
