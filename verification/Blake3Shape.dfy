/**
 The shape of the tree of chunks, and how it compares with the tree of the
 BLAKE3 paper (section 2.1 of "BLAKE3: one function, fast everywhere"), where
 the left subtree of a parent holds the largest power of two of chunks that
 leaves at least one for the right.
 */
module Blake3Shape {
  import opened Arithmetic
  import opened Wire
  import opened Blake3Words
  import opened Blake3Tree
  import opened Blake3Merge

  datatype Shape = Chunk(index: nat) | Parent(left: Shape, right: Shape)

  function Leaves(s: Shape): nat {
    match s
    case Chunk(_) => 1
    case Parent(l, r) => Leaves(l) + Leaves(r)
  }

  predicate Below(s: Shape, n: nat) {
    match s
    case Chunk(i) => i < n
    case Parent(l, r) => Below(l, n) && Below(r, n)
  }

  // ------------------------------------------------------------------
  // The tree the merge rule builds over n chunks.

  function BuiltShape(n: nat): Shape
    requires n > 0
  {
    if n == 1 then Chunk(0)
    else if n % 2 == 1 || n == 2 then Parent(BuiltShape(n - 1), Chunk(n - 1))
    else Parent(BuiltShape(n - 2), Parent(Chunk(n - 2), Chunk(n - 1)))
  }

  lemma {:induction false} BelowMore(s: Shape, m: nat, n: nat)
    requires Below(s, m) && m <= n
    ensures Below(s, n)
  {
    match s
    case Chunk(_) =>
    case Parent(l, r) =>
      BelowMore(l, m, n);
      BelowMore(r, m, n);
  }

  lemma {:induction false} BuiltLeaves(n: nat)
    requires n > 0
    ensures Leaves(BuiltShape(n)) == n && Below(BuiltShape(n), n)
  {
    if n == 1 {
    } else if n % 2 == 1 || n == 2 {
      BuiltLeaves(n - 1);
      BelowMore(BuiltShape(n - 1), n - 1, n);
      assert Leaves(Chunk(n - 1)) == 1;
    } else {
      BuiltLeaves(n - 2);
      BelowMore(BuiltShape(n - 2), n - 2, n);
      assert Leaves(Parent(Chunk(n - 2), Chunk(n - 1))) == 2;
      assert Below(Parent(Chunk(n - 2), Chunk(n - 1)), n);
    }
  }

  // The i-th chunk of x; the last one may be short.
  function ChunkAt(x: seq<byte>, i: nat): seq<byte> {
    x[Min(CHUNK_LEN * i, |x|)..Min(CHUNK_LEN * i + CHUNK_LEN, |x|)]
  }

  function Value(comp: Compressor, x: seq<byte>, s: Shape): Words8 {
    match s
    case Chunk(i) => ChunkCv(comp, ChunkAt(x, i), Counter(i))
    case Parent(l, r) => ParentCv(comp, Value(comp, x, l), Value(comp, x, r))
  }

  lemma {:induction false} ValuePrefix(comp: Compressor, f: seq<byte>, x: seq<byte>, s: Shape, n: nat)
    requires |f| == CHUNK_LEN * n && f <= x && Below(s, n)
    ensures Value(comp, x, s) == Value(comp, f, s)
  {
    hide ChunkCv, ParentCv, Counter;
    match s
    case Chunk(i) =>
      assert ChunkAt(x, i) == ChunkAt(f, i);
    case Parent(l, r) =>
      ValuePrefix(comp, f, x, l, n);
      ValuePrefix(comp, f, x, r, n);
  }

  lemma LastChunks(f: seq<byte>, l: seq<byte>, k: nat)
    requires |f| == CHUNK_LEN * k && |l| <= CHUNK_LEN
    ensures ChunkAt(f + l, k) == l
    ensures k > 0 ==> ChunkAt(f + l, k - 1) == Last(f)
  {
  }

  lemma JoinedCount(f: seq<byte>, k: nat)
    requires |f| == CHUNK_LEN * k && k > 0
    ensures |f| % CHUNK_LEN == 0 && |f| / CHUNK_LEN == k && f != []
    ensures Joined(f) <==> k == 1 || k % 2 == 0
  {
    Halves(|f|);
  }

  lemma BuiltNext(k: nat)
    requires k > 0
    ensures BuiltShape(k + 1) == if k == 1 || k % 2 == 0 then Parent(BuiltShape(k), Chunk(k))
                                 else Parent(BuiltShape(k - 1), Parent(Chunk(k - 1), Chunk(k)))
  {
  }

  lemma JoinedStep(comp: Compressor, k: nat, f: seq<byte>, l: seq<byte>)
    requires |f| == CHUNK_LEN * k && k > 0 && 0 < |l| <= CHUNK_LEN && (k == 1 || k % 2 == 0)
    requires Tree(comp, f) == Value(comp, f, BuiltShape(k))
    ensures Tree(comp, f + l) == Value(comp, f + l, BuiltShape(k + 1))
  {
    hide ChunkCv, ParentCv, Counter, Tree, Value, ChunkAt, Joined;
    JoinedCount(f, k);
    BuiltNext(k);
    BuiltLeaves(k);
    hide BuiltShape, Below;
    LastChunks(f, l, k);
    TreeJoined(comp, f, l);
    ValuePrefix(comp, f, f + l, BuiltShape(k), k);
    ValueNode(comp, f + l, BuiltShape(k), Chunk(k));
    ValueChunk(comp, f + l, k);
  }

  lemma PairStep(comp: Compressor, k: nat, f: seq<byte>, l: seq<byte>)
    requires |f| == CHUNK_LEN * k && k > 2 && 0 < |l| <= CHUNK_LEN && k % 2 == 1
    requires Tree(comp, Init(f)) == Value(comp, Init(f), BuiltShape(k - 1))
    ensures Tree(comp, f + l) == Value(comp, f + l, BuiltShape(k + 1))
  {
    hide ChunkCv, ParentCv, Counter, Tree, Value, ChunkAt, Joined;
    JoinedCount(f, k);
    BuiltNext(k);
    BuiltLeaves(k - 1);
    hide BuiltShape, Below;
    var g, x := Init(f), f + l;
    LastChunks(f, l, k);
    TreePair(comp, f, l);
    ValuePrefix(comp, g, x, BuiltShape(k - 1), k - 1);
    ValueNode(comp, x, BuiltShape(k - 1), Parent(Chunk(k - 1), Chunk(k)));
    ValueNode(comp, x, Chunk(k - 1), Chunk(k));
    ValueChunk(comp, x, k - 1);
    ValueChunk(comp, x, k);
  }

  // The value of the tree is that of its shape: k full chunks and a last one.
  lemma {:induction false} TreeHasShape(comp: Compressor, k: nat, f: seq<byte>, l: seq<byte>)
    requires |f| == CHUNK_LEN * k && |l| <= CHUNK_LEN && (l == [] ==> f == [])
    ensures Tree(comp, f + l) == Value(comp, f + l, BuiltShape(k + 1))
    decreases k
  {
    hide Tree, Value;
    if k == 0 {
      assert f + l == l;
      OneChunk(comp, l);
    } else {
      hide BuiltShape;
      var g := Init(f);
      assert f == g + Last(f);
      if k == 1 || k % 2 == 0 {
        TreeHasShape(comp, k - 1, g, Last(f));
        JoinedStep(comp, k, f, l);
      } else {
        assert g == Init(g) + Last(g);
        TreeHasShape(comp, k - 2, Init(g), Last(g));
        PairStep(comp, k, f, l);
      }
    }
  }

  lemma OneChunk(comp: Compressor, l: seq<byte>)
    requires |l| <= CHUNK_LEN
    ensures Tree(comp, l) == Value(comp, l, Chunk(0))
  {
    assert ChunkAt(l, 0) == l;
    hide ChunkCv, Counter;
  }

  lemma ValueNode(comp: Compressor, x: seq<byte>, l: Shape, r: Shape)
    ensures Value(comp, x, Parent(l, r)) == ParentCv(comp, Value(comp, x, l), Value(comp, x, r))
  {
    hide ChunkCv, ParentCv, Counter;
  }

  lemma ValueChunk(comp: Compressor, x: seq<byte>, i: nat)
    ensures Value(comp, x, Chunk(i)) == ChunkCv(comp, ChunkAt(x, i), Counter(i))
  {
    hide ChunkCv, Counter;
  }

  // ------------------------------------------------------------------
  // The tree of the paper.

  predicate PowerOfTwo(n: nat) {
    n == 1 || (n > 1 && n % 2 == 0 && PowerOfTwo(n / 2))
  }

  // The largest power of two below n, searched from p on.
  function LeftSize(n: nat, p: nat): (q: nat)
    requires 0 < p < n && PowerOfTwo(p)
    ensures PowerOfTwo(q) && q < n <= 2 * q
    decreases n - p
  {
    if 2 * p < n then LeftSize(n, 2 * p) else p
  }

  function PaperShape(first: nat, n: nat): Shape
    requires n > 0
    decreases n
  {
    if n == 1 then Chunk(first)
    else
      var p := LeftSize(n, 1);
      Parent(PaperShape(first, p), PaperShape(first + p, n - p))
  }

  lemma {:induction false} PaperLeaves(first: nat, n: nat)
    requires n > 0
    ensures Leaves(PaperShape(first, n)) == n
    decreases n
  {
    if n > 1 {
      var p := LeftSize(n, 1);
      PaperLeaves(first, p);
      PaperLeaves(first + p, n - p);
    }
  }

  lemma FourDivides(p: nat)
    requires PowerOfTwo(p) && p >= 4
    ensures p % 4 == 0
  {
  }

  lemma LeftSubtrees(n: nat)
    requires n > 2
    ensures var s, t, m := BuiltShape(n), PaperShape(0, n), if n % 2 == 1 then n - 1 else n - 2;
            && s.Parent? && s.left == BuiltShape(m) && Leaves(s.left) == m
            && t.Parent? && t.left == PaperShape(0, LeftSize(n, 1)) && Leaves(t.left) == LeftSize(n, 1)
  {
    BuiltLeaves(if n % 2 == 1 then n - 1 else n - 2);
    PaperLeaves(0, LeftSize(n, 1));
  }

  // Past six chunks the left subtrees have different sizes, or are themselves
  // trees over a power of two of chunks with left subtrees of different sizes.
  lemma {:induction false} MoreThanSix(n: nat)
    requires n > 6
    ensures BuiltShape(n) != PaperShape(0, n)
  {
    hide BuiltShape, PaperShape, LeftSize, Leaves;
    LeftSubtrees(n);
    var p := LeftSize(n, 1);
    if p == if n % 2 == 1 then n - 1 else n - 2 {
      LeftSubtrees(p);
      FourDivides(p);
      FourDivides(LeftSize(p, 1));
    }
  }

  lemma UpToSix(n: nat)
    requires 0 < n <= 6
    ensures BuiltShape(n) == PaperShape(0, n)
  {
  }

  // The two trees agree on inputs of up to six chunks and on no others.
  lemma {:induction false} SameShapeAsPaper(n: nat)
    requires n > 0
    ensures BuiltShape(n) == PaperShape(0, n) <==> n <= 6
  {
    if n <= 6 {
      UpToSix(n);
    } else {
      MoreThanSix(n);
    }
  }
}
