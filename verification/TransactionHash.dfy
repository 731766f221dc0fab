/**
 The 28-byte hash of a transaction: a truncated digest of everything in it but
 the signature.
 */
module TransactionHash {
  import opened Wire
  import opened Blake3Words
  import opened Blake3Compress
  import opened Blake3Tree
  import opened Blake3Bytes
  import opened Blake3Hasher
  import opened Blake3Calls
  import opened Blake3Domains
  import opened Blake3Collision
  import opened TransactionCodec

  const TX_HASH_SIZE := 28

  function TxHash(tx: Transaction): (h: Hash28) {
    Digest(Hash(Cv, HashedBytes(tx)), TX_HASH_SIZE)
  }

  method ComputeHash(tx: Transaction) returns (hash: array<byte>, ghost made: set<Input>)
    ensures fresh(hash) && hash[..] == TxHash(tx)
    ensures made == HashCalls(Cv, HashedBytes(tx))
  {
    hide Cv, Hash, HashCalls, Digest, HashedBytes;
    var buf := HashBuffer(tx);
    hash, made := Truncated(buf[..], TX_HASH_SIZE);
  }

  // A transaction hash is two compressions: of the 64 bytes, as the only block
  // of a chunk, and of the result padded with zeros, as the root.
  lemma {:induction false} TxHashIsTwoCalls(tx: Transaction)
    ensures var leaf := Cv(Input(IV, HashedBytes(tx), 64, 0, 3));
            TxHash(tx) == BytesOf(Cv(Input(IV, BytesOf(leaf) + Zeros(32), 32, 0, 8)))[..28]
  {
    HashOfBlock(Cv, HashedBytes(tx));
    DigestPrefix(Hash(Cv, HashedBytes(tx)), TX_HASH_SIZE);
    hide Cv, BytesOf, Hash, Digest, HashedBytes;
  }

  // Two different root calls whose outputs agree on their first 28 bytes.
  ghost predicate NearCollision(comp: Compressor, x: seq<byte>, y: seq<byte>) {
    var a, b := RootInput(Tree(comp, x)), RootInput(Tree(comp, y));
    a != b && comp(a)[..7] == comp(b)[..7]
  }

  // Hashing x and y breaks the compression function.
  ghost predicate CompressBroken(comp: Compressor, x: seq<byte>, y: seq<byte>) {
    Collision(comp, HashCalls(comp, x), HashCalls(comp, y)) || NearCollision(comp, x, y)
  }

  lemma WordsOfPrefix(u: Words8, v: Words8)
    requires BytesOf(u)[..28] == BytesOf(v)[..28]
    ensures u[..7] == v[..7]
  {
    assert BytesOf(u)[..28] == BytesOf(u[..7]);
    assert BytesOf(v)[..28] == BytesOf(v[..7]);
    WordsOfBytes(u[..7]);
    WordsOfBytes(v[..7]);
  }

  // A truncated digest binds the input too, up to a near-collision of the two
  // root calls.
  lemma {:induction false} TruncatedBinds(comp: Compressor, x: seq<byte>, y: seq<byte>)
    requires Digest(Hash(comp, x), TX_HASH_SIZE) == Digest(Hash(comp, y), TX_HASH_SIZE) && x != y
    ensures CompressBroken(comp, x, y)
  {
    hide Tree, TreeCalls, RootInput, BytesOf, Digest, Collision, HashCalls;
    var a, b := RootInput(Tree(comp, x)), RootInput(Tree(comp, y));
    if a == b {
      HashBinds(comp, x, y);
    } else {
      DigestPrefix(Hash(comp, x), TX_HASH_SIZE);
      DigestPrefix(Hash(comp, y), TX_HASH_SIZE);
      WordsOfPrefix(comp(a), comp(b));
    }
  }

  // Transactions with one hash are the same but for their signatures, or the
  // compression function has been broken.
  lemma {:induction false} TxHashBinds(s: Transaction, t: Transaction)
    requires TxHash(s) == TxHash(t)
    ensures var x, y := HashedBytes(s), HashedBytes(t);
            s == t.(signature := s.signature) || CompressBroken(Cv, x, y)
  {
    hide Cv, Digest, Hash, HashedBytes, CompressBroken;
    var x, y := HashedBytes(s), HashedBytes(t);
    HashedBytesBind(s, t);
    if x != y {
      TruncatedBinds(Cv, x, y);
    }
  }

  // The signature is not covered.
  lemma TxHashIgnoresSignature(tx: Transaction, sig: Signature)
    ensures TxHash(tx.(signature := sig)) == TxHash(tx)
  {
    hide Cv, Digest, Hash;
    HashedBytesBind(tx.(signature := sig), tx);
  }
}
