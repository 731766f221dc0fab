/**
 The state of one chunk. Bytes are collected in a block buffer that is flushed
 only when more input arrives, so that the last block is still at hand, full or
 not, when the chunk ends.
 */
module Blake3Chunk {
  import opened Arithmetic
  import opened Wire
  import opened Blake3Words
  import opened Blake3Compress
  import opened Blake3Tree
  import opened Blake3Calls

  // blocks_compressed is a byte.
  const MAX_BLOCKS := 256

  class ChunkState {
    var cv: Words8
    var chunkCounter: bv64
    const buf: array<byte>
    var bufLen: nat
    var blocksCompressed: nat
    // Every byte given so far, and every call of compress.
    ghost var contents: seq<byte>
    ghost var calls: set<Input>

    ghost predicate ValidBuf()
      reads this, buf
    {
      && buf.Length == BLOCK_LEN && bufLen <= BLOCK_LEN
      && |contents| == BLOCK_LEN * blocksCompressed + bufLen
      && cv == Chain(Cv, contents[..BLOCK_LEN * blocksCompressed], chunkCounter)
      && calls == ChainCalls(Cv, contents[..BLOCK_LEN * blocksCompressed], chunkCounter)
      && buf[..] == contents[BLOCK_LEN * blocksCompressed..] + Zeros(BLOCK_LEN - bufLen)
    }

    // The buffer is emptied only to make room.
    ghost predicate Valid()
      reads this, buf
    {
      ValidBuf() && (bufLen == 0 ==> contents == [])
    }

    constructor (counter: bv64)
      ensures Valid() && fresh(buf)
      ensures contents == [] && chunkCounter == counter
    {
      cv := IV;
      chunkCounter := counter;
      buf := new byte[BLOCK_LEN](_ => 0);
      bufLen := 0;
      blocksCompressed := 0;
      contents := [];
      calls := {};
    }

    function StartFlag(): byte
      reads this
    {
      if blocksCompressed == 0 then CHUNK_START else 0
    }

    method FlushBlock()
      requires ValidBuf() && bufLen == BLOCK_LEN
      modifies this, buf
      ensures ValidBuf() && bufLen == 0
      ensures contents == old(contents) && chunkCounter == old(chunkCounter)
    {
      hide Cv;
      ghost var n := BLOCK_LEN * blocksCompressed;
      assert contents[n..] == buf[..];
      assert BlockInput(Cv, contents, chunkCounter) == Input(cv, buf[..], FULL, chunkCounter, StartFlag());
      cv, calls := CompressCv(cv, buf[..], FULL, chunkCounter, StartFlag(), calls);
      blocksCompressed := blocksCompressed + 1;
      bufLen := 0;
      var next := CopyAt(buf, 0, Zeros(BLOCK_LEN));
      assert buf[..next] == buf[..];
      assert contents[..n + BLOCK_LEN] == contents;
    }

    method Append(bytes: seq<byte>)
      requires ValidBuf() && bufLen + |bytes| <= BLOCK_LEN
      modifies this, buf
      ensures ValidBuf() && bufLen == old(bufLen) + |bytes|
      ensures contents == old(contents) + bytes && chunkCounter == old(chunkCounter)
    {
      hide Cv, Chain, ChainCalls;
      ghost var n := BLOCK_LEN * blocksCompressed;
      bufLen := CopyAt(buf, bufLen, bytes);
      assert buf[..] == buf[..bufLen] + buf[bufLen..];
      contents := contents + bytes;
      assert contents[..n] == old(contents[..n]);
    }

    method Update(input: seq<byte>)
      requires Valid() && |contents| + |input| <= MAX_BLOCKS * BLOCK_LEN
      modifies this, buf
      ensures Valid()
      ensures contents == old(contents) + input && chunkCounter == old(chunkCounter)
    {
      hide Cv, Chain, ChainCalls;
      var pos := 0;
      while pos < |input|
        invariant pos <= |input| && Valid()
        invariant contents == old(contents) + input[..pos] && chunkCounter == old(chunkCounter)
      {
        if bufLen == BLOCK_LEN {
          FlushBlock();
        }
        var take := Min(|input| - pos, BLOCK_LEN - bufLen);
        Append(input[pos..pos + take]);
        assert input[..pos + take] == input[..pos] + input[pos..pos + take];
        pos := pos + take;
      }
      assert input[..pos] == input;
    }

    method Output() returns (out: Words8, ghost made: set<Input>)
      requires Valid()
      ensures out == ChunkCv(Cv, contents, chunkCounter)
      ensures made == ChunkCalls(Cv, contents, chunkCounter)
    {
      hide Cv, Chain, ChainCalls;
      assert Flushed(|contents|) == BLOCK_LEN * blocksCompressed;
      out, made := CompressCv(cv, buf[..], Len(bufLen), chunkCounter, StartFlag() | CHUNK_END, calls);
    }
  }
}
