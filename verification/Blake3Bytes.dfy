/** Words, chaining values and digests in byte arrays. */
module Blake3Bytes {
  import opened Arithmetic
  import opened Wire
  import opened Blake3Words

  const CV_BYTES := 32

  // The chaining value in slot j, and those in the first n slots.
  function Slot(bytes: seq<byte>, j: nat): Words8
    requires CV_BYTES * j + CV_BYTES <= |bytes|
  {
    WordsOf(bytes[CV_BYTES * j..CV_BYTES * j + CV_BYTES])
  }

  function Slots(bytes: seq<byte>, n: nat): (s: seq<Words8>)
    requires CV_BYTES * n <= |bytes|
    ensures |s| == n
    ensures forall j :: 0 <= j < n ==> s[j] == Slot(bytes, j)
  {
    seq(n, j requires 0 <= j < n => Slot(bytes, j))
  }

  // A digest of any length: a prefix of the hash, or the hash followed by
  // bytes derived from it.
  function Digest(h: seq<byte>, n: nat): (d: seq<byte>)
    requires |h| == 32
    ensures |d| == n
    ensures forall i :: 0 <= i < n ==> d[i] == DigestByte(h, i)
  {
    seq(n, i requires 0 <= i < n => DigestByte(h, i))
  }

  function DigestByte(h: seq<byte>, i: nat): byte
    requires |h| == 32
  {
    if i < 32 then h[i] else h[i % 32] ^ ByteAfter(i / 256) ^ ByteAfter(i)
  }

  // A long digest says no more than the hash; a short one is its prefix.
  lemma DigestPrefix(h: seq<byte>, n: nat)
    requires |h| == 32
    ensures n <= 32 ==> Digest(h, n) == h[..n]
    ensures n >= 32 ==> Digest(h, n)[..32] == h
  {
    hide ByteAfter;
  }

  // Behind the hash, byte i repeats byte i mod 32, changed by the two low bytes
  // of i.
  lemma {:induction false} DigestTail(h: seq<byte>, n: nat, i: nat)
    requires |h| == 32 && 32 <= i < n
    ensures Digest(h, n)[i] == h[i % 32] ^ ((i / 256 % 256) as byte) ^ ((i % 256) as byte)
  {
    LowByte(i / 256);
    LowByte(i);
    hide ByteAfter;
  }

  lemma LowByte(i: nat)
    ensures ByteAfter(i) == (i % 256) as byte
  {
    SameLowByte(i);
    SmallByte(i % 256);
    hide ByteAfter;
  }

  lemma SmallByte(k: nat)
    requires k < 256
    ensures ByteAfter(k) == k as byte
  {
    ByteAfterValue(k);
    assert (ByteAfter(k) as nat) as byte == ByteAfter(k);
  }

  lemma {:induction false} SameLowByte(i: nat)
    ensures ByteAfter(i) == ByteAfter(i % 256)
  {
    hide ByteAfter;
    if i >= 256 {
      SameLowByte(i - 256);
      ByteWraps(i - 256);
    }
  }

  lemma {:induction false} ByteWraps(i: nat)
    ensures ByteAfter(i + 256) == ByteAfter(i)
  {
    if i == 0 {
      ByteAfterValue(255);
      assert (ByteAfter(255) as nat) as byte == ByteAfter(255);
    } else {
      ByteWraps(i - 1);
    }
  }

  method Store(a: array<byte>, off: nat, x: word)
    requires off + 4 <= a.Length
    modifies a
    ensures a[off..off + 4] == BytesOf([x])
    ensures a[..off] == old(a[..off]) && a[off + 4..] == old(a[off + 4..])
  {
    hide ByteAt;
    a[off] := ByteAt(x, 0);
    a[off + 1] := ByteAt(x, 1);
    a[off + 2] := ByteAt(x, 2);
    a[off + 3] := ByteAt(x, 3);
  }

  lemma OneMoreWord(ws: seq<word>, i: nat)
    requires i < |ws|
    ensures BytesOf(ws[..i + 1]) == BytesOf(ws[..i]) + BytesOf([ws[i]])
  {
    hide ByteAt;
    var bs, cs := BytesOf(ws[..i + 1]), BytesOf(ws[..i]) + BytesOf([ws[i]]);
    forall k | 0 <= k < 4 * i + 4
      ensures bs[k] == cs[k]
    {
      assert k >= 4 * i ==> k / 4 == i && (k - 4 * i) / 4 == 0 && (k - 4 * i) % 4 == k % 4;
    }
  }

  // Words stored one after the other from off on.
  method StoreWords(a: array<byte>, off: nat, ws: seq<word>)
    requires off + 4 * |ws| <= a.Length
    modifies a
    ensures a[..off + 4 * |ws|] == old(a[..off]) + BytesOf(ws)
    ensures a[off + 4 * |ws|..] == old(a[off + 4 * |ws|..])
  {
    hide BytesOf;
    for i := 0 to |ws|
      invariant a[..off + 4 * i] == old(a[..off]) + BytesOf(ws[..i])
      invariant a[off + 4 * i..] == old(a[off + 4 * i..])
    {
      var p := off + 4 * i;
      ghost var suffix := a[p..];
      Store(a, p, ws[i]);
      OneMoreWord(ws, i);
      assert a[..p + 4] == a[..p] + a[p..p + 4];
      assert a[p + 4..] == suffix[4..];
    }
    assert ws[..|ws|] == ws;
  }

  method LoadSlot(a: array<byte>, j: nat) returns (cv: Words8)
    requires CV_BYTES * j + CV_BYTES <= a.Length
    ensures cv == Slot(a[..], j)
  {
    hide Load;
    var words := new word[8](_ => 0);
    ghost var slot := Slot(a[..], j);
    for i := 0 to 8
      invariant forall k :: 0 <= k < i ==> words[k] == slot[k]
    {
      var p := CV_BYTES * j + 4 * i;
      words[i] := Load(a[p], a[p + 1], a[p + 2], a[p + 3]);
    }
    cv := words[..];
  }

  // Storing a value in slot n adds it to the first n.
  method StoreSlot(a: array<byte>, n: nat, cv: Words8)
    requires CV_BYTES * n + CV_BYTES <= a.Length
    modifies a
    ensures Slots(a[..], n + 1) == old(Slots(a[..], n)) + [cv]
  {
    hide WordsOf, BytesOf;
    StoreWords(a, CV_BYTES * n, cv);
    WordsOfBytes(cv);
    ghost var base := CV_BYTES * n;
    assert Slot(a[..], n) == cv by {
      assert a[..][base..base + CV_BYTES] == a[..base + CV_BYTES][base..];
    }
    assert a[..base] == a[..base + CV_BYTES][..base];
    SlotsPrefix(a[..], n);
    SlotsPrefix(old(a[..]), n);
    assert a[..][..base] == a[..base] && old(a[..])[..base] == old(a[..base]);
  }

  lemma SlotsPrefix(bytes: seq<byte>, n: nat)
    requires CV_BYTES * n <= |bytes|
    ensures Slots(bytes, n) == Slots(bytes[..CV_BYTES * n], n)
  {
    hide WordsOf;
    var prefix := bytes[..CV_BYTES * n];
    forall j | 0 <= j < n
      ensures Slot(bytes, j) == Slot(prefix, j)
    {
      var p := CV_BYTES * j;
      assert prefix[p..p + CV_BYTES] == bytes[p..p + CV_BYTES];
    }
  }

  method WriteDigest(out: array<byte>, words: Words8, outLen: nat)
    requires outLen <= out.Length
    modifies out
    ensures out[..outLen] == Digest(BytesOf(words), outLen)
    ensures out[outLen..] == old(out[outLen..])
  {
    hide ByteAt, ByteAfter;
    ghost var d := Digest(BytesOf(words), outLen);
    var copyLen := Min(outLen, 32);
    for i := 0 to copyLen
      invariant forall k :: 0 <= k < i ==> out[k] == d[k]
      invariant out[outLen..] == old(out[outLen..])
    {
      out[i] := ByteAt(words[i / 4], i % 4);
    }
    for i := copyLen to outLen
      invariant forall k :: 0 <= k < i ==> out[k] == d[k]
      invariant out[outLen..] == old(out[outLen..])
    {
      out[i] := out[i % 32] ^ ByteAfter(i / 256) ^ ByteAfter(i);
    }
  }
}
