/**
 The tree of chaining values a digest is computed from, as functions of the
 whole input. Inside a chunk the blocks are chained; chunks are joined in
 pairs, and the pairs are folded from the left. A final compression of the
 tree's value gives the digest.
 */
module Blake3Tree {
  import opened Arithmetic
  import opened Wire
  import opened Blake3Words

  const BLOCK_LEN := 64
  const CHUNK_LEN := 1024

  // BLOCK_LEN as the byte passed to compress.
  const FULL: byte := 64

  const CHUNK_START: byte := 1
  const CHUNK_END: byte := 2
  const PARENT: byte := 4
  const ROOT: byte := 8

  // A 64-bit counter after one increment, and after i of them.
  function Next(c: bv64): bv64 {
    c + 1
  }

  function Counter(i: nat): bv64 {
    if i == 0 then 0 else Next(Counter(i - 1))
  }

  // The length of a block as the byte passed to compress.
  function Len(n: nat): byte
    requires n <= BLOCK_LEN
  {
    ByteAfter(n)
  }

  lemma LenBinds(m: nat, n: nat)
    requires m <= BLOCK_LEN && n <= BLOCK_LEN && Len(m) == Len(n)
    ensures m == n
  {
    ByteAfterValue(m);
    ByteAfterValue(n);
  }

  // ------------------------------------------------------------------
  // Chunks.

  // The call that compresses the last of the full blocks p, and the chaining
  // value after all of them.
  function BlockInput(comp: Compressor, p: seq<byte>, counter: bv64): Input
    requires p != [] && |p| % BLOCK_LEN == 0
    decreases |p|, 0
  {
    var n := |p| - BLOCK_LEN;
    Input(Chain(comp, p[..n], counter), p[n..], FULL, counter, if n == 0 then CHUNK_START else 0)
  }

  function Chain(comp: Compressor, p: seq<byte>, counter: bv64): Words8
    requires |p| % BLOCK_LEN == 0
    decreases |p|, 1
  {
    if p == [] then IV else comp(BlockInput(comp, p, counter))
  }

  // How many of the first n bytes of a chunk lie in blocks before the last.
  // The last block is kept back even when it is full.
  function Flushed(n: nat): (f: nat)
    ensures f % BLOCK_LEN == 0 && f <= n <= f + BLOCK_LEN && (f == n ==> n == 0)
  {
    if n == 0 then 0 else (n - 1) / BLOCK_LEN * BLOCK_LEN
  }

  function LastFlags(f: nat): byte {
    if f == 0 then CHUNK_START | CHUNK_END else CHUNK_END
  }

  // The call that compresses the last block of a chunk, padded with zeros.
  function ChunkInput(comp: Compressor, b: seq<byte>, counter: bv64): Input {
    var f := Flushed(|b|);
    Input(Chain(comp, b[..f], counter), b[f..] + Zeros(BLOCK_LEN - (|b| - f)), Len(|b| - f), counter, LastFlags(f))
  }

  function ChunkCv(comp: Compressor, b: seq<byte>, counter: bv64): Words8 {
    comp(ChunkInput(comp, b, counter))
  }

  // ------------------------------------------------------------------
  // The tree.

  function ParentInput(l: Words8, r: Words8): Input {
    Input(IV, BytesOf(l) + BytesOf(r), FULL, 0, PARENT)
  }

  function ParentCv(comp: Compressor, l: Words8, r: Words8): Words8 {
    comp(ParentInput(l, r))
  }

  // One chunk, or two, the first of them being chunk i of the input.
  function Group(comp: Compressor, g: seq<byte>, i: nat): Words8 {
    if |g| <= CHUNK_LEN then ChunkCv(comp, g, Counter(i))
    else ParentCv(comp, ChunkCv(comp, g[..CHUNK_LEN], Counter(i)), ChunkCv(comp, g[CHUNK_LEN..], Counter(i + 1)))
  }

  // Where an input of more than one chunk is cut: before its last one or two
  // chunks, so that an even number of chunks, or a single one, is on the left.
  function Cut(n: nat): (c: nat)
    requires n > CHUNK_LEN
    ensures 0 < c < n && n - c <= 2 * CHUNK_LEN && c % CHUNK_LEN == 0
    ensures c % (2 * CHUNK_LEN) == 0 || (c == CHUNK_LEN && n <= 2 * CHUNK_LEN)
  {
    if n <= 2 * CHUNK_LEN then CHUNK_LEN else (n - 1) / (2 * CHUNK_LEN) * (2 * CHUNK_LEN)
  }

  function Tree(comp: Compressor, x: seq<byte>): Words8
    decreases |x|
  {
    if |x| <= CHUNK_LEN then ChunkCv(comp, x, Counter(0))
    else
      var c := Cut(|x|);
      ParentCv(comp, Tree(comp, x[..c]), Group(comp, x[c..], c / CHUNK_LEN))
  }

  function RootInput(t: Words8): Input {
    Input(IV, BytesOf(t) + Zeros(32), 32, 0, ROOT)
  }

  function Hash(comp: Compressor, x: seq<byte>): (h: seq<byte>)
    ensures |h| == 32
  {
    BytesOf(comp(RootInput(Tree(comp, x))))
  }
}
