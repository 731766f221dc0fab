/**
 The digest binds the input. Two different inputs with one 32-byte digest
 exhibit a collision of the compression function, between a call made for one
 and a call made for the other. Nothing is assumed of the compression function.
 */
module Blake3Collision {
  import opened Wire
  import opened Blake3Words
  import opened Blake3Tree
  import opened Blake3Calls

  ghost predicate Collide(comp: Compressor, a: Input, b: Input) {
    a != b && comp(a) == comp(b)
  }

  // Some call of s and some call of t collide.
  ghost predicate Collision(comp: Compressor, s: set<Input>, t: set<Input>) {
    exists a, b :: a in s && b in t && Collide(comp, a, b)
  }

  lemma MoreCalls(comp: Compressor, s: set<Input>, t: set<Input>, s': set<Input>, t': set<Input>)
    requires Collision(comp, s, t) && s <= s' && t <= t'
    ensures Collision(comp, s', t')
  {
  }

  // ------------------------------------------------------------------
  // Chunks.

  lemma {:induction false} ChainBinds(comp: Compressor, p: seq<byte>, i: bv64, q: seq<byte>, j: bv64)
    requires |p| % BLOCK_LEN == 0 && |q| % BLOCK_LEN == 0 && (p == [] <==> q == [])
    requires Chain(comp, p, i) == Chain(comp, q, j) && p != q
    ensures Collision(comp, ChainCalls(comp, p, i), ChainCalls(comp, q, j))
    decreases |p|
  {
    var a, b := BlockInput(comp, p, i), BlockInput(comp, q, j);
    assert a in ChainCalls(comp, p, i) && b in ChainCalls(comp, q, j);
    if a != b {
      assert Collide(comp, a, b);
    } else {
      var p', q' := p[..|p| - BLOCK_LEN], q[..|q| - BLOCK_LEN];
      assert p == p' + a.block && q == q' + b.block;
      ChainBinds(comp, p', i, q', j);
      MoreCalls(comp, ChainCalls(comp, p', i), ChainCalls(comp, q', j), ChainCalls(comp, p, i), ChainCalls(comp, q, j));
    }
  }

  lemma {:induction false} ChunkBinds(comp: Compressor, b: seq<byte>, i: bv64, c: seq<byte>, j: bv64)
    requires ChunkCv(comp, b, i) == ChunkCv(comp, c, j) && b != c
    ensures Collision(comp, ChunkCalls(comp, b, i), ChunkCalls(comp, c, j))
  {
    var s, t := ChunkInput(comp, b, i), ChunkInput(comp, c, j);
    assert s in ChunkCalls(comp, b, i) && t in ChunkCalls(comp, c, j);
    if s != t {
      assert Collide(comp, s, t);
    } else {
      var f, g := Flushed(|b|), Flushed(|c|);
      LastBlockBinds(comp, b, i, c, j);
      hide Chain, ChainCalls, ChunkInput, Flushed;
      assert b == b[..f] + b[f..] && c == c[..g] + c[g..];
      ChainBinds(comp, b[..f], i, c[..g], j);
      MoreCalls(comp, ChainCalls(comp, b[..f], i), ChainCalls(comp, c[..g], j), ChunkCalls(comp, b, i), ChunkCalls(comp, c, j));
    }
  }

  lemma LastBlockBinds(comp: Compressor, b: seq<byte>, i: bv64, c: seq<byte>, j: bv64)
    requires ChunkInput(comp, b, i) == ChunkInput(comp, c, j)
    ensures var f, g := Flushed(|b|), Flushed(|c|);
            && Chain(comp, b[..f], i) == Chain(comp, c[..g], j) && b[f..] == c[g..]
            && (f == 0 <==> g == 0)
  {
    hide Chain, Len, Zeros, Flushed;
    var s, t := ChunkInput(comp, b, i), ChunkInput(comp, c, j);
    var f, g := Flushed(|b|), Flushed(|c|);
    LenBinds(|b| - f, |c| - g);
    assert b[f..] == s.block[..|b| - f] && c[g..] == t.block[..|c| - g];
  }

  // ------------------------------------------------------------------
  // The tree.

  lemma BytesBind(l: Words8, r: Words8)
    requires BytesOf(l) == BytesOf(r)
    ensures l == r
  {
    WordsOfBytes(l);
    WordsOfBytes(r);
  }

  lemma ParentBinds(l: Words8, r: Words8, l': Words8, r': Words8)
    requires ParentInput(l, r) == ParentInput(l', r')
    ensures l == l' && r == r'
  {
    var b, b' := BytesOf(l) + BytesOf(r), BytesOf(l') + BytesOf(r');
    assert b == b';
    assert b[..32] == BytesOf(l) && b[32..] == BytesOf(r);
    assert b'[..32] == BytesOf(l') && b'[32..] == BytesOf(r');
    BytesBind(l, l');
    BytesBind(r, r');
  }

  lemma {:induction false} GroupBinds(comp: Compressor, g: seq<byte>, i: nat, h: seq<byte>, j: nat)
    requires Group(comp, g, i) == Group(comp, h, j) && g != h
    ensures Collision(comp, GroupCalls(comp, g, i), GroupCalls(comp, h, j))
  {
    hide ChunkCv, ChunkCalls, ChunkInput, ParentInput, Counter;
    var a, b := GroupInput(comp, g, i), GroupInput(comp, h, j);
    if |g| <= CHUNK_LEN && |h| <= CHUNK_LEN {
      ChunkBinds(comp, g, Counter(i), h, Counter(j));
    } else if a != b {
      GroupInputIsCall(comp, g, i);
      GroupInputIsCall(comp, h, j);
      assert Collide(comp, a, b);
    } else {
      var g0, g1, h0, h1 := g[..CHUNK_LEN], g[CHUNK_LEN..], h[..CHUNK_LEN], h[CHUNK_LEN..];
      ParentBinds(ChunkCv(comp, g0, Counter(i)), ChunkCv(comp, g1, Counter(i + 1)),
                  ChunkCv(comp, h0, Counter(j)), ChunkCv(comp, h1, Counter(j + 1)));
      assert g == g0 + g1 && h == h0 + h1;
      if g0 != h0 {
        ChunkBinds(comp, g0, Counter(i), h0, Counter(j));
        MoreCalls(comp, ChunkCalls(comp, g0, Counter(i)), ChunkCalls(comp, h0, Counter(j)),
              GroupCalls(comp, g, i), GroupCalls(comp, h, j));
      } else {
        ChunkBinds(comp, g1, Counter(i + 1), h1, Counter(j + 1));
        MoreCalls(comp, ChunkCalls(comp, g1, Counter(i + 1)), ChunkCalls(comp, h1, Counter(j + 1)),
              GroupCalls(comp, g, i), GroupCalls(comp, h, j));
      }
    }
  }

  lemma GroupInputIsCall(comp: Compressor, g: seq<byte>, i: nat)
    ensures GroupInput(comp, g, i) in GroupCalls(comp, g, i)
  {
    hide ChunkCv, ChunkInput, ParentInput, Counter;
  }

  lemma TreeInputIsCall(comp: Compressor, x: seq<byte>)
    ensures TreeInput(comp, x) in TreeCalls(comp, x)
  {
    hide ChunkCv, ChunkInput, ParentInput, Counter, Cut;
  }

  lemma {:induction false} TreeBinds(comp: Compressor, x: seq<byte>, y: seq<byte>)
    requires Tree(comp, x) == Tree(comp, y) && x != y
    ensures Collision(comp, TreeCalls(comp, x), TreeCalls(comp, y))
    decreases |x|
  {
    hide ChunkCv, ChunkCalls, ChunkInput, ParentInput, Counter, Group, GroupCalls, Cut;
    var a, b := TreeInput(comp, x), TreeInput(comp, y);
    if |x| <= CHUNK_LEN && |y| <= CHUNK_LEN {
      ChunkBinds(comp, x, Counter(0), y, Counter(0));
    } else if a != b {
      TreeInputIsCall(comp, x);
      TreeInputIsCall(comp, y);
      assert Collide(comp, a, b);
    } else {
      var c, d := Cut(|x|), Cut(|y|);
      var x0, x1, y0, y1 := x[..c], x[c..], y[..d], y[d..];
      ParentBinds(Tree(comp, x0), Group(comp, x1, c / CHUNK_LEN), Tree(comp, y0), Group(comp, y1, d / CHUNK_LEN));
      assert x == x0 + x1 && y == y0 + y1;
      if x1 != y1 {
        GroupBinds(comp, x1, c / CHUNK_LEN, y1, d / CHUNK_LEN);
        MoreCalls(comp, GroupCalls(comp, x1, c / CHUNK_LEN), GroupCalls(comp, y1, d / CHUNK_LEN),
              TreeCalls(comp, x), TreeCalls(comp, y));
      } else {
        TreeBinds(comp, x0, y0);
        MoreCalls(comp, TreeCalls(comp, x0), TreeCalls(comp, y0), TreeCalls(comp, x), TreeCalls(comp, y));
      }
    }
  }

  lemma RootBinds(t: Words8, u: Words8)
    requires RootInput(t) == RootInput(u)
    ensures t == u
  {
    assert RootInput(t).block[..32] == BytesOf(t) && RootInput(u).block[..32] == BytesOf(u);
    BytesBind(t, u);
  }

  // Equal digests of different inputs are a collision of compress.
  lemma {:induction false} HashBinds(comp: Compressor, x: seq<byte>, y: seq<byte>)
    requires Hash(comp, x) == Hash(comp, y) && x != y
    ensures Collision(comp, HashCalls(comp, x), HashCalls(comp, y))
  {
    hide Tree, TreeCalls, RootInput, BytesOf;
    var a, b := RootInput(Tree(comp, x)), RootInput(Tree(comp, y));
    BytesBind(comp(a), comp(b));
    if a != b {
      assert a in HashCalls(comp, x) && b in HashCalls(comp, y);
      assert Collide(comp, a, b);
    } else {
      RootBinds(Tree(comp, x), Tree(comp, y));
      TreeBinds(comp, x, y);
      MoreCalls(comp, TreeCalls(comp, x), TreeCalls(comp, y), HashCalls(comp, x), HashCalls(comp, y));
    }
  }
}
