/**
 The compression function: an in-place mixing of sixteen words under a message
 block, specified by functions on values. For every block the mixing is a
 bijection.
 */
module Blake3Compress {
  import opened Wire
  import opened Blake3Words

  type Row = r: seq<nat> | |r| == 16 && forall j :: 0 <= j < |r| ==> r[j] < 16 witness seq(16, _ => 0)

  const ROW0: Row := [0, 1, 2, 3, 4, 5, 6, 7, 8, 9, 10, 11, 12, 13, 14, 15]
  const ROW1: Row := [2, 6, 3, 10, 7, 0, 4, 13, 1, 11, 12, 5, 9, 14, 15, 8]
  const ROW2: Row := [3, 4, 10, 12, 13, 2, 7, 14, 6, 5, 9, 0, 11, 15, 8, 1]
  const ROW3: Row := [10, 7, 12, 9, 14, 3, 13, 15, 4, 0, 11, 2, 5, 8, 1, 6]
  const ROW4: Row := [12, 13, 9, 11, 15, 10, 14, 8, 7, 2, 5, 3, 0, 1, 6, 4]
  const ROW5: Row := [9, 14, 11, 5, 8, 12, 15, 1, 13, 3, 0, 10, 2, 6, 4, 7]
  const ROW6: Row := [11, 15, 5, 0, 1, 9, 8, 6, 14, 10, 2, 12, 3, 4, 7, 13]

  const MSG_SCHEDULE: seq<Row> := [ROW0, ROW1, ROW2, ROW3, ROW4, ROW5, ROW6]

  const ROUNDS: nat := |MSG_SCHEDULE|

  // Each row applies one fixed permutation to the row before it.
  function Permute(r: Row): seq<nat> {
    [r[2], r[6], r[3], r[10], r[7], r[0], r[4], r[13], r[1], r[11], r[12], r[5], r[9], r[14], r[15], r[8]]
  }

  lemma {:induction false} ScheduleStep(round: nat)
    requires 0 < round < ROUNDS
    ensures MSG_SCHEDULE[round] == Permute(MSG_SCHEDULE[round - 1])
  {
    match round
    case 1 => assert ROW1 == Permute(ROW0);
    case 2 => assert ROW2 == Permute(ROW1);
    case 3 => assert ROW3 == Permute(ROW2);
    case 4 => assert ROW4 == Permute(ROW3);
    case 5 => assert ROW5 == Permute(ROW4);
    case 6 => assert ROW6 == Permute(ROW5);
  }

  // ------------------------------------------------------------------
  // Half of g on the four words it touches, and its inverse.

  datatype Quad = Quad(a: word, b: word, c: word, d: word)

  function Half(q: Quad, m: word, r1: byte, r2: byte): Quad
    requires 0 < r1 < 32 && 0 < r2 < 32
  {
    var a := Add(Add(q.a, q.b), m);
    var d := Rotr(Xor(q.d, a), r1);
    var c := Add(q.c, d);
    var b := Rotr(Xor(q.b, c), r2);
    Quad(a, b, c, d)
  }

  function UnHalf(q: Quad, m: word, r1: byte, r2: byte): Quad
    requires 0 < r1 < 32 && 0 < r2 < 32
  {
    var b := Xor(Rotl(q.b, r2), q.c);
    var c := Sub(q.c, q.d);
    var d := Xor(Rotl(q.d, r1), q.a);
    var a := Sub(Sub(q.a, m), b);
    Quad(a, b, c, d)
  }

  lemma UndoHalf(q: Quad, m: word, r1: byte, r2: byte)
    requires Rotation(r1) && Rotation(r2)
    ensures UnHalf(Half(q, m, r1, r2), m, r1, r2) == q
  {
    hide Rotr, Rotl, Add, Sub, Xor;
    var h := Half(q, m, r1, r2);
    RotateBack(Xor(q.b, h.c), r2);
    XorTwice(q.b, h.c);
    AddSub(q.c, h.d);
    RotateBack(Xor(q.d, h.a), r1);
    XorTwice(q.d, h.a);
    AddSub(Add(q.a, q.b), m);
    AddSub(q.a, q.b);
  }

  lemma RedoHalf(q: Quad, m: word, r1: byte, r2: byte)
    requires Rotation(r1) && Rotation(r2)
    ensures Half(UnHalf(q, m, r1, r2), m, r1, r2) == q
  {
    hide Rotr, Rotl, Add, Sub, Xor;
    var h := UnHalf(q, m, r1, r2);
    SubAdd(Sub(q.a, m), h.b);
    SubAdd(q.a, m);
    XorTwice(Rotl(q.d, r1), q.a);
    RotateForth(q.d, r1);
    SubAdd(q.c, q.d);
    XorTwice(Rotl(q.b, r2), q.c);
    RotateForth(q.b, r2);
  }

  // ------------------------------------------------------------------
  // g on four places of the state.

  datatype Places = Places(a: nat, b: nat, c: nat, d: nat)

  predicate Distinct(p: Places) {
    && p.a < 16 && p.b < 16 && p.c < 16 && p.d < 16
    && p.a != p.b && p.a != p.c && p.a != p.d && p.b != p.c && p.b != p.d && p.c != p.d
  }

  function Get(s: Words16, p: Places): Quad
    requires Distinct(p)
  {
    Quad(s[p.a], s[p.b], s[p.c], s[p.d])
  }

  function Put(s: Words16, p: Places, q: Quad): Words16
    requires Distinct(p)
  {
    s[p.a := q.a][p.b := q.b][p.c := q.c][p.d := q.d]
  }

  lemma PutGet(s: Words16, p: Places, q: Quad)
    requires Distinct(p)
    ensures Get(Put(s, p, q), p) == q
    ensures Put(Put(s, p, q), p, Get(s, p)) == s
  {
  }

  function GQuad(q: Quad, mx: word, my: word): Quad {
    Half(Half(q, mx, 16, 12), my, 8, 7)
  }

  function UnGQuad(q: Quad, mx: word, my: word): Quad {
    UnHalf(UnHalf(q, my, 8, 7), mx, 16, 12)
  }

  lemma GQuadInverse(q: Quad, mx: word, my: word)
    ensures UnGQuad(GQuad(q, mx, my), mx, my) == q && GQuad(UnGQuad(q, mx, my), mx, my) == q
  {
    hide Half, UnHalf;
    UndoHalf(q, mx, 16, 12);
    UndoHalf(Half(q, mx, 16, 12), my, 8, 7);
    RedoHalf(q, my, 8, 7);
    RedoHalf(UnHalf(q, my, 8, 7), mx, 16, 12);
  }

  function G(s: Words16, p: Places, mx: word, my: word): Words16
    requires Distinct(p)
  {
    Put(s, p, GQuad(Get(s, p), mx, my))
  }

  function UnG(s: Words16, p: Places, mx: word, my: word): Words16
    requires Distinct(p)
  {
    Put(s, p, UnGQuad(Get(s, p), mx, my))
  }

  lemma GInverse(s: Words16, p: Places, mx: word, my: word)
    requires Distinct(p)
    ensures UnG(G(s, p, mx, my), p, mx, my) == s && G(UnG(s, p, mx, my), p, mx, my) == s
  {
    var q := Get(s, p);
    GQuadInverse(q, mx, my);
    hide Get, Put, GQuad, UnGQuad;
    PutGet(s, p, GQuad(q, mx, my));
    PutGet(s, p, UnGQuad(q, mx, my));
  }

  // ------------------------------------------------------------------
  // A round applies g to the four columns, then to the four diagonals.

  const PLACES: seq<Places> :=
    [Places(0, 4, 8, 12), Places(1, 5, 9, 13), Places(2, 6, 10, 14), Places(3, 7, 11, 15),
     Places(0, 5, 10, 15), Places(1, 6, 11, 12), Places(2, 7, 8, 13), Places(3, 4, 9, 14)]

  const STEPS: nat := |PLACES|

  function PlacesOf(step: nat): (p: Places)
    requires step < STEPS
    ensures Distinct(p)
  {
    PLACES[step]
  }

  // The state after the first k steps of a round.
  function Round(s: Words16, msg: Words16, row: Row, k: nat): Words16
    requires k <= STEPS
  {
    if k == 0 then s
    else G(Round(s, msg, row, k - 1), PlacesOf(k - 1), msg[row[2 * k - 2]], msg[row[2 * k - 1]])
  }

  function UnRound(s: Words16, msg: Words16, row: Row, k: nat): Words16
    requires k <= STEPS
    decreases k
  {
    if k == 0 then s
    else UnRound(UnG(s, PlacesOf(k - 1), msg[row[2 * k - 2]], msg[row[2 * k - 1]]), msg, row, k - 1)
  }

  lemma {:induction false} RoundInverse(s: Words16, msg: Words16, row: Row, k: nat)
    requires k <= STEPS
    ensures UnRound(Round(s, msg, row, k), msg, row, k) == s
    ensures Round(UnRound(s, msg, row, k), msg, row, k) == s
    decreases k
  {
    hide G, UnG, PlacesOf;
    if k > 0 {
      var p, mx, my := PlacesOf(k - 1), msg[row[2 * k - 2]], msg[row[2 * k - 1]];
      GInverse(Round(s, msg, row, k - 1), p, mx, my);
      GInverse(s, p, mx, my);
      RoundInverse(s, msg, row, k - 1);
      RoundInverse(UnG(s, p, mx, my), msg, row, k - 1);
    }
  }

  // The state after the first k rounds.
  function Mix(s: Words16, msg: Words16, k: nat): Words16
    requires k <= ROUNDS
  {
    if k == 0 then s else Round(Mix(s, msg, k - 1), msg, MSG_SCHEDULE[k - 1], STEPS)
  }

  function UnMix(s: Words16, msg: Words16, k: nat): Words16
    requires k <= ROUNDS
    decreases k
  {
    if k == 0 then s else UnMix(UnRound(s, msg, MSG_SCHEDULE[k - 1], STEPS), msg, k - 1)
  }

  lemma {:induction false} MixInverse(s: Words16, msg: Words16, k: nat)
    requires k <= ROUNDS
    ensures UnMix(Mix(s, msg, k), msg, k) == s
    ensures Mix(UnMix(s, msg, k), msg, k) == s
    decreases k
  {
    hide Round, UnRound;
    if k > 0 {
      var row := MSG_SCHEDULE[k - 1];
      RoundInverse(Mix(s, msg, k - 1), msg, row, STEPS);
      RoundInverse(s, msg, row, STEPS);
      MixInverse(s, msg, k - 1);
      MixInverse(UnRound(s, msg, row, STEPS), msg, k - 1);
    }
  }

  // ------------------------------------------------------------------
  // The compression function.

  function Initial(a: Input): Words16 {
    a.cv + IV[..4] + [Low(a.counter), High(a.counter), Widen(a.len), Widen(a.flags)]
  }

  function Low(c: bv64): word {
    (c & 0xFFFF_FFFF) as word
  }

  function High(c: bv64): word {
    (c >> 32) as word
  }

  // The counter fills words 12 and 13, low half first; the length and the
  // flags follow.
  lemma CounterInState(a: Input)
    ensures var s := Initial(a);
            && (s[12] as bv64) | ((s[13] as bv64) << 32) == a.counter
            && s[14] as nat == a.len as nat && s[15] as nat == a.flags as nat
  {
  }

  // The final state folded onto itself and onto the chaining value.
  function Feed(v: Words16, cv: Words8): (out: Words16)
    ensures forall i :: 0 <= i < 8 ==> out[i] == Xor(v[i], v[8 + i])
    ensures forall i :: 8 <= i < 16 ==> out[i] == Xor(v[i], cv[i - 8])
  {
    seq(16, i requires 0 <= i < 16 => if i < 8 then Xor(v[i], v[8 + i]) else Xor(v[i], cv[i - 8]))
  }

  function Full(a: Input): Words16 {
    Feed(Mix(Initial(a), WordsOf(a.block), ROUNDS), a.cv)
  }

  // The chaining value: the first half of the output.
  function Cv(a: Input): Words8 {
    Full(a)[..8]
  }

  lemma CounterWords(c: bv64, d: bv64)
    requires Low(c) == Low(d) && High(c) == High(d)
    ensures c == d
  {
  }

  lemma FeedBinds(v: Words16, w: Words16, cv: Words8)
    requires Feed(v, cv) == Feed(w, cv)
    ensures v == w
  {
    hide Xor;
    var f, g := Feed(v, cv), Feed(w, cv);
    forall i | 8 <= i < 16
      ensures v[i] == w[i]
    {
      XorTwice(v[i], cv[i - 8]);
      XorTwice(w[i], cv[i - 8]);
      assert f[i] == g[i];
    }
    forall i | 0 <= i < 8
      ensures v[i] == w[i]
    {
      XorTwice(v[i], v[8 + i]);
      XorTwice(w[i], w[8 + i]);
      assert f[i] == g[i];
    }
  }

  // With the chaining value and the block fixed, the full output determines
  // the length, the counter and the flags.
  lemma {:induction false} FullBinds(a: Input, b: Input)
    requires a.cv == b.cv && a.block == b.block && Full(a) == Full(b)
    ensures a == b
  {
    var msg := WordsOf(a.block);
    var i, j := Initial(a), Initial(b);
    hide Initial, Mix, UnMix, WordsOf, Low, High, Feed;
    FeedBinds(Mix(i, msg, ROUNDS), Mix(j, msg, ROUNDS), a.cv);
    MixInverse(i, msg, ROUNDS);
    MixInverse(j, msg, ROUNDS);
    assert i == j;
    InitialBinds(a, b);
  }

  lemma InitialBinds(a: Input, b: Input)
    requires Initial(a) == Initial(b)
    ensures a == b.(block := a.block)
  {
    hide Low, High, Widen;
    var i, j := Initial(a), Initial(b);
    assert i[..8] == a.cv && j[..8] == b.cv;
    assert i[12] == Low(a.counter) && i[13] == High(a.counter) && i[14] == Widen(a.len) && i[15] == Widen(a.flags);
    assert j[12] == Low(b.counter) && j[13] == High(b.counter) && j[14] == Widen(b.len) && j[15] == Widen(b.flags);
    CounterWords(a.counter, b.counter);
    WidenBinds(a.len, b.len);
    WidenBinds(a.flags, b.flags);
  }

  // ------------------------------------------------------------------
  // The methods.

  // The two halves of g differ only in the message word and the rotations.
  method HalfInPlace(state: array<word>, p: Places, m: word, r1: byte, r2: byte)
    requires state.Length == 16 && Distinct(p) && Rotation(r1) && Rotation(r2)
    modifies state
    ensures state[..] == Put(old(state[..]), p, Half(Get(old(state[..]), p), m, r1, r2))
  {
    hide Rotr, Add, Xor;
    state[p.a] := Add(Add(state[p.a], state[p.b]), m);
    state[p.d] := Rotr(Xor(state[p.d], state[p.a]), r1);
    state[p.c] := Add(state[p.c], state[p.d]);
    state[p.b] := Rotr(Xor(state[p.b], state[p.c]), r2);
  }

  method GInPlace(state: array<word>, a: nat, b: nat, c: nat, d: nat, mx: word, my: word)
    requires state.Length == 16 && Distinct(Places(a, b, c, d))
    modifies state
    ensures state[..] == G(old(state[..]), Places(a, b, c, d), mx, my)
  {
    hide Half, Get, Put;
    var p := Places(a, b, c, d);
    ghost var s: Words16 := state[..];
    HalfInPlace(state, p, mx, 16, 12);
    HalfInPlace(state, p, my, 8, 7);
    ghost var h := Half(Get(s, p), mx, 16, 12);
    PutTwice(s, p, h, Half(h, my, 8, 7));
  }

  lemma PutTwice(s: Words16, p: Places, h: Quad, q: Quad)
    requires Distinct(p)
    ensures Get(Put(s, p, h), p) == h && Put(Put(s, p, h), p, q) == Put(s, p, q)
  {
  }

  method RoundInPlace(state: array<word>, msg: Words16, round: nat)
    requires state.Length == 16 && round < ROUNDS
    modifies state
    ensures state[..] == Round(old(state[..]), msg, MSG_SCHEDULE[round], STEPS)
  {
    hide G;
    var schedule := MSG_SCHEDULE[round];
    ghost var s := state[..];
    GInPlace(state, 0, 4, 8, 12, msg[schedule[0]], msg[schedule[1]]);
    assert state[..] == Round(s, msg, schedule, 1);
    GInPlace(state, 1, 5, 9, 13, msg[schedule[2]], msg[schedule[3]]);
    assert state[..] == Round(s, msg, schedule, 2);
    GInPlace(state, 2, 6, 10, 14, msg[schedule[4]], msg[schedule[5]]);
    assert state[..] == Round(s, msg, schedule, 3);
    GInPlace(state, 3, 7, 11, 15, msg[schedule[6]], msg[schedule[7]]);
    assert state[..] == Round(s, msg, schedule, 4);
    GInPlace(state, 0, 5, 10, 15, msg[schedule[8]], msg[schedule[9]]);
    assert state[..] == Round(s, msg, schedule, 5);
    GInPlace(state, 1, 6, 11, 12, msg[schedule[10]], msg[schedule[11]]);
    assert state[..] == Round(s, msg, schedule, 6);
    GInPlace(state, 2, 7, 8, 13, msg[schedule[12]], msg[schedule[13]]);
    assert state[..] == Round(s, msg, schedule, 7);
    GInPlace(state, 3, 4, 9, 14, msg[schedule[14]], msg[schedule[15]]);
  }

  method InitState(cv: Words8, len: byte, counter: bv64, flags: byte, ghost block: Bytes64) returns (state: array<word>)
    ensures fresh(state) && state.Length == 16
    ensures state[..] == Initial(Input(cv, block, len, counter, flags))
  {
    hide Low, High, Widen;
    var init := cv + IV[..4] + [Low(counter), High(counter), Widen(len), Widen(flags)];
    state := new word[16](i requires 0 <= i < |init| => init[i]);
  }

  method LoadBlock(block: Bytes64) returns (msg: array<word>)
    ensures fresh(msg) && msg.Length == 16 && msg[..] == WordsOf(block)
  {
    hide Load;
    msg := new word[16](_ => 0);
    for i := 0 to 16
      invariant forall k :: 0 <= k < i ==> msg[k] == WordsOf(block)[k]
    {
      msg[i] := Load(block[4 * i], block[4 * i + 1], block[4 * i + 2], block[4 * i + 3]);
    }
  }

  method FeedForward(state: array<word>, cv: Words8)
    requires state.Length == 16
    modifies state
    ensures state[..] == Feed(old(state[..]), cv)
  {
    hide Xor, Feed;
    ghost var v: Words16 := state[..];
    ghost var f := Feed(v, cv);
    for i := 0 to 8
      invariant forall k :: 0 <= k < i ==> state[k] == f[k]
      invariant forall k :: i <= k < 8 ==> state[k] == v[k]
      invariant forall k :: 8 <= k < 8 + i ==> state[k] == f[k]
      invariant forall k :: 8 + i <= k < 16 ==> state[k] == v[k]
    {
      state[i] := Xor(state[i], state[8 + i]);
      state[8 + i] := Xor(state[8 + i], cv[i]);
    }
  }

  method MixInPlace(state: array<word>, msg: Words16)
    requires state.Length == 16
    modifies state
    ensures state[..] == Mix(old(state[..]), msg, ROUNDS)
  {
    hide Round;
    for r := 0 to ROUNDS
      invariant state[..] == Mix(old(state[..]), msg, r)
    {
      RoundInPlace(state, msg, r);
    }
  }

  method Compress(cv: Words8, block: Bytes64, len: byte, counter: bv64, flags: byte, out: array<word>)
    requires out.Length == 16
    modifies out
    ensures out[..] == Full(Input(cv, block, len, counter, flags))
  {
    hide Initial, WordsOf, Feed, Mix;
    var state := InitState(cv, len, counter, flags, block);
    var msg := LoadBlock(block);
    MixInPlace(state, msg[..]);
    FeedForward(state, cv);
    assert state[..] == Full(Input(cv, block, len, counter, flags));
    hide Full;
    CopyWords(state[..], out);
  }

  // memcpy(out, state, sizeof(state)).
  method CopyWords(state: Words16, out: array<word>)
    requires out.Length == 16
    modifies out
    ensures out[..] == state
  {
    for i := 0 to 16
      invariant out[..i] == state[..i]
    {
      out[i] := state[i];
      assert out[..i + 1] == out[..i] + [state[i]];
    }
    assert out[..] == out[..16];
  }

  // compress_in_place, and every other call of which only the first half of
  // the output is used. The calls made so far are kept track of.
  method CompressCv(cv: Words8, block: Bytes64, len: byte, counter: bv64, flags: byte, ghost calls: set<Input>)
    returns (r: Words8, ghost made: set<Input>)
    ensures r == Cv(Input(cv, block, len, counter, flags))
    ensures made == calls + {Input(cv, block, len, counter, flags)}
  {
    made := calls + {Input(cv, block, len, counter, flags)};
    var full := new word[16];
    Compress(cv, block, len, counter, flags, full);
    r := full[..8];
  }
}
