/**
 The transaction generator cuts its nonce range into batches. A full batch
 spreads evenly over the shards, unless its nonces wrap around 2^64 at the
 wrong place.
 */
module Generator {
  import opened Wire
  import opened Routing
  import opened Arithmetic

  // ------------------------------------------------------------------
  // Tiling.

  function BatchCount(total: nat, size: nat): nat
    requires size > 0
  {
    (total + size - 1) / size
  }

  function TileStart(b: nat, size: nat): nat {
    b * size
  }

  function TileEnd(b: nat, size: nat, total: nat): nat {
    if b * size + size > total then total else b * size + size
  }

  // The batches tile the range: position i lies in batch i / size, which is
  // one of the batches, and in no other.
  lemma {:induction false} TilesPartition(i: nat, b: nat, size: nat, total: nat)
    requires size > 0 && i < total
    ensures i / size < BatchCount(total, size)
    ensures TileStart(b, size) <= i < TileEnd(b, size, total) <==> b == i / size
  {
    DivMod(i, size);
    DivMod(total + size - 1, size);
    var q, m := i / size, BatchCount(total, size);
    hide BatchCount;
    if m < q {
      MulStep(m, q, size);
    }
    if b < q {
      MulStep(b, q, size);
    } else if q < b {
      MulStep(q, b, size);
    }
  }

  // Every batch has at least one transaction.
  lemma {:induction false} TileNotEmpty(b: nat, size: nat, total: nat)
    requires size > 0 && b < BatchCount(total, size)
    ensures TileStart(b, size) < TileEnd(b, size, total)
  {
    DivMod(total + size - 1, size);
    MulStep(b, BatchCount(total, size), size);
  }

  // The base nonce may be negative; the cast to uint64 wraps.
  function Nonce(base: int, i: nat): u64 {
    (base + i) % TWO64
  }

  // The nonces of a batch follow one another in 64 bits.
  lemma NoncesFollow(base: int, first: nat, j: nat)
    ensures Nonce(base, first + j) == Wrap64(Nonce(base, first) + j)
  {
  }

  // The loop that fills batch b.
  method FillBatch(b: nat, size: nat, total: nat, base: int) returns (nonces: array<u64>)
    requires size > 0 && b < BatchCount(total, size)
    ensures fresh(nonces)
    ensures nonces.Length == TileEnd(b, size, total) - TileStart(b, size)
    ensures forall j :: 0 <= j < nonces.Length ==> nonces[j] == Nonce(base, TileStart(b, size) + j)
  {
    TileNotEmpty(b, size, total);
    var txStart := b * size;
    var txEnd := txStart + size;
    if txEnd > total {
      txEnd := total;
    }
    nonces := new u64[txEnd - txStart](_ => 0);
    var txsInBatch := 0;
    for i := txStart to txEnd
      invariant txsInBatch == i - txStart
      invariant forall j :: 0 <= j < txsInBatch ==> nonces[j] == Nonce(base, txStart + j)
    {
      nonces[txsInBatch] := (base + i) % TWO64;
      txsInBatch := txsInBatch + 1;
    }
  }

  // ------------------------------------------------------------------
  // Equal shares.

  // How many numbers below x leave remainder i.
  function Hits(x: nat, n: nat, i: nat): nat
    requires n > 0
  {
    if x == 0 then 0 else Hits(x - 1, n, i) + if (x - 1) % n == i then 1 else 0
  }

  lemma NextQuotient(x: nat, n: nat)
    requires x > 0 && n > 0
    ensures var q, r := (x - 1) / n, (x - 1) % n;
            if r == n - 1 then x / n == q + 1 && x % n == 0 else x / n == q && x % n == r + 1
  {
    DivMod(x - 1, n);
    var q, r := (x - 1) / n, (x - 1) % n;
    MulAdd(q, 1, n);
    if r == n - 1 {
      DivModUnique(x, n, q + 1, 0);
    } else {
      DivModUnique(x, n, q, r + 1);
    }
  }

  lemma {:induction false} HitsClosed(x: nat, n: nat, i: nat)
    requires n > 0 && i < n
    ensures Hits(x, n, i) == x / n + if x % n > i then 1 else 0
  {
    if x == 0 {
      DivModUnique(0, n, 0, 0);
    } else {
      HitsClosed(x - 1, n, i);
      NextQuotient(x, n);
    }
  }

  // Consecutive nonces from start on, without wrapping around.
  ghost predicate Consecutive(es: seq<Entry>, start: nat) {
    forall j :: 0 <= j < |es| ==> es[j].tx.nonce == start + j
  }

  lemma {:induction false} ShareOfConsecutive(n: nat, es: seq<Entry>, start: nat, i: nat)
    requires n > 0 && Consecutive(es, start)
    ensures |ForShard(n, es, i)| == Hits(start + |es|, n, i) - Hits(start, n, i)
  {
    if es != [] {
      ShareOfConsecutive(n, es[..|es| - 1], start, i);
    }
  }

  // Every shard gets the same number of transactions.
  ghost predicate Even(n: nat, es: seq<Entry>)
    requires n > 0
  {
    forall i: nat :: i < n ==> |ForShard(n, es, i)| * n == |es|
  }

  lemma {:induction false} FullBatchIsEven(n: nat, es: seq<Entry>, start: nat)
    requires n > 0 && Consecutive(es, start) && |es| % n == 0
    ensures Even(n, es)
  {
    var m := |es| / n;
    DivMod(|es|, n);
    DivMod(start, n);
    var q, r := start / n, start % n;
    MulAdd(q, m, n);
    DivModUnique(start + |es|, n, q + m, r);
    forall i: nat | i < n
      ensures |ForShard(n, es, i)| * n == |es|
    {
      ShareOfConsecutive(n, es, start, i);
      HitsClosed(start, n, i);
      HitsClosed(start + |es|, n, i);
    }
  }

  // Consecutive nonces from start on, in 64 bits.
  ghost predicate Wrapping(es: seq<Entry>, start: u64) {
    forall j :: 0 <= j < |es| ==> es[j].tx.nonce == Wrap64(start + j)
  }

  function Bit(b: bool): nat {
    if b then 1 else 0
  }

  lemma WrappedHits(n: nat, es: seq<Entry>, start: u64, i: nat)
    requires n > 0 && i < n && Wrapping(es, start) && TWO64 < start + |es| && |es| <= TWO64
    ensures |ForShard(n, es, i)| == Hits(TWO64, n, i) - Hits(start, n, i) + Hits(start + |es| - TWO64, n, i)
  {
    hide ForShard;
    var w := TWO64 - start;
    var a, b := es[..w], es[w..];
    assert es == a + b;
    ForShardAppend(n, a, b, i);
    assert Hits(0, n, i) == 0;
    hide Hits;
    ShareOfConsecutive(n, a, start, i);
    ShareOfConsecutive(n, b, 0, i);
  }

  // What shard i gets of a batch that wraps around.
  lemma {:induction false} WrappedShare(n: nat, es: seq<Entry>, start: u64, i: nat)
    requires n > 0 && i < n && Wrapping(es, start) && TWO64 < start + |es| && |es| <= TWO64
    ensures var end := start + |es| - TWO64;
            |ForShard(n, es, i)| == (TWO64 / n - start / n + end / n)
                                    + Bit(TWO64 % n > i) - Bit(start % n > i) + Bit(end % n > i)
  {
    hide ForShard, Hits, Wrapping;
    WrappedHits(n, es, start, i);
    HitsClosed(TWO64, n, i);
    HitsClosed(start, n, i);
    HitsClosed(start + |es| - TWO64, n, i);
  }

  // Where a batch that wraps ends, modulo n.
  lemma {:induction false} WrappedEnd(n: nat, m: nat, start: nat, end: nat)
    requires n > 0 && m % n == 0 && end + TWO64 == start + m
    ensures var w, s := TWO64 % n, start % n;
            && end % n == (if s >= w then s - w else s - w + n)
            && TWO64 / n - start / n + end / n == (if s >= w then m / n else m / n - 1)
  {
    DivMod(m, n);
    DivMod(start, n);
    DivMod(TWO64, n);
    var w, s := TWO64 % n, start % n;
    var q := start / n + m / n - TWO64 / n;
    MulAdd(start / n, m / n, n);
    assert end + (TWO64 / n) * n + w == (start / n + m / n) * n + s;
    EndQuotient(n, TWO64 / n, start / n + m / n, w, s, end);
  }

  lemma EndQuotient(n: nat, a: nat, b: nat, w: nat, s: nat, end: nat)
    requires n > 0 && w < n && s < n && end + a * n + w == b * n + s
    ensures s >= w ==> b >= a && end / n == b - a && end % n == s - w
    ensures s < w ==> b >= a + 1 && end / n == b - a - 1 && end % n == s - w + n
  {
    if b < a {
      MulStep(b, a, n);
    } else {
      MulAdd(b - a, a, n);
      if s >= w {
        DivModUnique(end, n, b - a, s - w);
      } else if b > a {
        MulAdd(b - a - 1, 1, n);
        DivModUnique(end, n, b - a - 1, s - w + n);
      }
    }
  }

  lemma EvenCount(n: nat, m: nat, count: nat)
    requires n > 0 && m % n == 0
    ensures count * n == m <==> count == m / n
  {
    DivMod(m, n);
    if count < m / n {
      MulStep(count, m / n, n);
    } else if m / n < count {
      MulStep(m / n, count, n);
    }
  }

  // A full batch that wraps around is even exactly when the shard count
  // divides 2^64 or divides the number of nonces before the wrap.
  lemma {:induction false} WrappedBatchIsEven(n: nat, es: seq<Entry>, start: u64)
    requires n > 0 && |es| % n == 0 && Wrapping(es, start) && TWO64 < start + |es| && |es| <= TWO64
    ensures Even(n, es) <==> TWO64 % n == 0 || start % n == TWO64 % n
  {
    hide ForShard, Wrapping;
    var end := start + |es| - TWO64;
    WrappedEnd(n, |es|, start, end);
    var w, s := TWO64 % n, start % n;
    forall i: nat | i < n
      ensures |ForShard(n, es, i)| == (if s >= w then |es| / n else |es| / n - 1)
                                      + Bit(w > i) - Bit(s > i) + Bit(end % n > i)
      ensures |ForShard(n, es, i)| * n == |es| <==> |ForShard(n, es, i)| == |es| / n
    {
      WrappedShare(n, es, start, i);
      EvenCount(n, |es|, |ForShard(n, es, i)|);
    }
    if Even(n, es) {
      assert |ForShard(n, es, 0)| * n == |es|;
      assert |ForShard(n, es, n - 1)| * n == |es|;
    }
  }

  // Which starting nonces a full batch of a given length may have.
  predicate EvenStart(n: nat, size: nat, start: u64)
    requires n > 0
  {
    start + size <= TWO64 || TWO64 % n == 0 || start % n == TWO64 % n
  }

  lemma {:induction false} BatchIsEven(n: nat, es: seq<Entry>, start: u64)
    requires n > 0 && |es| % n == 0 && |es| <= TWO64 && Wrapping(es, start)
    ensures Even(n, es) <==> EvenStart(n, |es|, start)
  {
    if start + |es| <= TWO64 {
      hide ForShard, Even;
      assert Consecutive(es, start);
      FullBatchIsEven(n, es, start);
    } else {
      WrappedBatchIsEven(n, es, start);
    }
  }

  // ------------------------------------------------------------------
  // The tiles of a range.

  // es holds the nonces of tile b, which is a full one.
  ghost predicate FullTile(es: seq<Entry>, base: int, b: nat, size: nat, total: nat) {
    && |es| == size && TileStart(b, size) + size <= total
    && forall j :: 0 <= j < size ==> es[j].tx.nonce == Nonce(base, TileStart(b, size) + j)
  }

  lemma TileIsEven(n: nat, es: seq<Entry>, base: int, b: nat, size: nat, total: nat)
    requires n > 0 && size % n == 0 && size <= TWO64 && FullTile(es, base, b, size, total)
    ensures Even(n, es) <==> EvenStart(n, size, Nonce(base, TileStart(b, size)))
  {
    var first := TileStart(b, size);
    hide TileStart, Even, EvenStart;
    TileFollows(es, base, b, size, total);
    BatchIsEven(n, es, Nonce(base, first));
  }

  lemma TileFollows(es: seq<Entry>, base: int, b: nat, size: nat, total: nat)
    requires FullTile(es, base, b, size, total)
    ensures Wrapping(es, Nonce(base, TileStart(b, size)))
  {
    var first := TileStart(b, size);
    hide TileStart;
    forall j | 0 <= j < size
      ensures es[j].tx.nonce == Wrap64(Nonce(base, first) + j)
    {
      NoncesFollow(base, first, j);
    }
  }

  // The base nonce is a 64-bit, the number of transactions a 32-bit signed
  // integer.
  predicate ValidRange(base: int, total: nat) {
    -(TWO64 / 2) <= base < TWO64 / 2 && total < TWO32 / 2
  }

  // All full tiles of the range are even over n shards exactly when the base
  // is not negative, or too negative for a full tile to reach 0, or n divides
  // 2^64 or the base.
  predicate EvenRange(n: nat, base: int, size: nat, total: nat)
    requires n > 0 && size > 0
  {
    base >= 0 || TileStart(-base / size, size) + size > total || TWO64 % n == 0 || -base % n == 0
  }

  // A tile that starts below 0 and ends above it.
  lemma StraddlingTile(n: nat, base: int, first: nat, size: nat)
    requires n > 0 && size % n == 0 && first % n == 0
    requires -(TWO64 / 2) <= base && base + first < 0 < base + first + size <= TWO64 / 2
    ensures EvenStart(n, size, Nonce(base, first)) <==> TWO64 % n == 0 || -base % n == 0
  {
    var w, start := -base - first, Nonce(base, first);
    assert start == TWO64 - w;
    SameRemainder(n, TWO64, start, w);
    SameRemainder(n, -base, first, w);
  }

  // x - y is a multiple of n exactly when x and y leave the same remainder.
  lemma SameRemainder(n: nat, x: nat, y: nat, d: nat)
    requires n > 0 && x == y + d
    ensures x % n == y % n <==> d % n == 0
  {
    DivMod(x, n);
    DivMod(y, n);
    DivMod(d, n);
    var q, r, p := y / n, y % n, d / n;
    if d % n == 0 {
      MulAdd(q, p, n);
      DivModUnique(x, n, q + p, r);
    } else if x % n == r {
      RemainderOfDifference(n, x / n, q, r, d);
    }
  }

  lemma RemainderOfDifference(n: nat, a: nat, b: nat, r: nat, d: nat)
    requires n > 0 && a * n + r == b * n + r + d
    ensures d % n == 0
  {
    if a < b {
      MulStep(a, b, n);
    } else {
      MulAdd(a - b, b, n);
      DivModUnique(d, n, a - b, 0);
    }
  }

  // Only the tile in which the nonces pass 0 can be uneven.
  lemma OtherTile(n: nat, base: int, first: nat, size: nat)
    requires n > 0 && -(TWO64 / 2) <= base && base + first + size <= TWO64 / 2 + TWO32
    requires base + first >= 0 || base + first + size <= 0
    ensures EvenStart(n, size, Nonce(base, first))
  {
  }

  // The tile that nonce 0 is in, or would be in.
  lemma TileOfZero(m: nat, b: nat, size: nat)
    requires size > 0
    ensures var z := TileStart(m / size, size);
            && z <= m < z + size
            && (TileStart(b, size) < m < TileStart(b, size) + size ==> TileStart(b, size) == z)
            && (z == m ==> m % size == 0)
  {
    DivMod(m, size);
    var q := m / size;
    if b < q {
      MulStep(b, q, size);
    } else if q < b {
      MulStep(q, b, size);
    }
  }

  lemma TileOffset(n: nat, b: nat, size: nat)
    requires n > 0 && size > 0 && size % n == 0
    ensures TileStart(b, size) % n == 0
  {
    DivMod(size, n);
    var p := size / n;
    assert b * size == b * (p * n) == (b * p) * n;
    DivModUnique(b * size, n, b * p, 0);
  }

  lemma EachTile(n: nat, base: int, size: nat, total: nat, b: nat)
    requires n > 0 && size > 0 && size % n == 0 && ValidRange(base, total) && TileStart(b, size) + size <= total
    requires EvenRange(n, base, size, total)
    ensures EvenStart(n, size, Nonce(base, TileStart(b, size)))
  {
    hide TileStart, EvenStart, Nonce;
    var first := TileStart(b, size);
    if base + first < 0 < base + first + size {
      TileOffset(n, b, size);
      StraddlingTile(n, base, first, size);
      TileOfZero(-base, b, size);
    } else {
      OtherTile(n, base, first, size);
    }
  }

  lemma UnevenTile(n: nat, base: int, size: nat, total: nat)
    requires n > 0 && size > 0 && size % n == 0 && ValidRange(base, total)
    requires !EvenRange(n, base, size, total)
    ensures base < 0
    ensures var first := TileStart(-base / size, size);
            first + size <= total && !EvenStart(n, size, Nonce(base, first))
  {
    var z := -base / size;
    TileOfZero(-base, z, size);
    TileOffset(n, z, size);
    hide TileStart, EvenStart, Nonce;
    UnevenAt(n, base, TileStart(z, size), size);
  }

  lemma UnevenAt(n: nat, base: int, first: nat, size: nat)
    requires n > 0 && size % n == 0 && first % n == 0 && -(TWO64 / 2) <= base < 0
    requires TWO64 % n != 0 && -base % n != 0
    requires first <= -base < first + size && size <= TWO32
    ensures !EvenStart(n, size, Nonce(base, first))
  {
    hide EvenStart, Nonce;
    StraddlingTile(n, base, first, size);
  }

  lemma {:induction false} TilesAreEven(n: nat, base: int, size: nat, total: nat)
    requires n > 0 && size > 0 && size % n == 0 && ValidRange(base, total)
    ensures EvenRange(n, base, size, total)
       <==> forall b: nat :: TileStart(b, size) + size <= total ==> EvenStart(n, size, Nonce(base, TileStart(b, size)))
  {
    hide TileStart, EvenStart, Nonce, EvenRange, ValidRange;
    if EvenRange(n, base, size, total) {
      forall b: nat | TileStart(b, size) + size <= total
        ensures EvenStart(n, size, Nonce(base, TileStart(b, size)))
      {
        EachTile(n, base, size, total, b);
      }
    } else {
      UnevenTile(n, base, size, total);
    }
  }

  // Three shards, batches of three, and a base nonce of -2: one shard gets two
  // of the first three transactions and one gets none.
  lemma {:induction false} NegativeBaseIsUneven(es: seq<Entry>)
    requires FullTile(es, -2, 0, 3, 3)
    ensures !Even(3, es)
  {
    TileIsEven(3, es, -2, 0, 3, 3);
    assert Nonce(-2, 0) == TWO64 - 2;
    assert TWO64 % 3 == 1 && (TWO64 - 2) % 3 == 2;
  }

  // Lists built from even pieces, in whatever arrangement, are even.
  lemma {:induction false} EvenAppend(n: nat, a: seq<Entry>, b: seq<Entry>)
    requires n > 0 && Even(n, a) && Even(n, b)
    ensures Even(n, a + b)
  {
    hide ForShard;
    forall i: nat | i < n
      ensures |ForShard(n, a + b, i)| * n == |a + b|
    {
      ForShardAppend(n, a, b, i);
      var x, y := |ForShard(n, a, i)|, |ForShard(n, b, i)|;
      MulAdd(x, y, n);
    }
  }
}
