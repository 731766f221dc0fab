/**
 A round seen as four columns and then four diagonals of a square of words, and
 a published value: the first 64 bytes that the BLAKE3 test vectors give for the
 input of the 64 bytes 0, 1, ..., 63. They come from a single call of the
 compression function.
 */
module Blake3Vector {
  import opened Wire
  import opened Blake3Words
  import opened Blake3Compress

  // The state by columns; also the message words in the order g takes them.
  datatype Square = Square(c0: Quad, c1: Quad, c2: Quad, c3: Quad)

  function Four(s: Words16, p: Places, q: Places, r: Places, t: Places): Square
    requires Distinct(p) && Distinct(q) && Distinct(r) && Distinct(t)
  {
    Square(Get(s, p), Get(s, q), Get(s, r), Get(s, t))
  }

  // The columns, and the diagonals, of a state.
  function Columns(s: Words16): Square {
    Four(s, Places(0, 4, 8, 12), Places(1, 5, 9, 13), Places(2, 6, 10, 14), Places(3, 7, 11, 15))
  }

  function Diagonals(s: Words16): Square {
    Four(s, Places(0, 5, 10, 15), Places(1, 6, 11, 12), Places(2, 7, 8, 13), Places(3, 4, 9, 14))
  }

  // Row i moves i places to the left: the diagonals become columns.
  function Turn(x: Square): Square {
    Square(Quad(x.c0.a, x.c1.b, x.c2.c, x.c3.d), Quad(x.c1.a, x.c2.b, x.c3.c, x.c0.d),
           Quad(x.c2.a, x.c3.b, x.c0.c, x.c1.d), Quad(x.c3.a, x.c0.b, x.c1.c, x.c2.d))
  }

  function TurnBack(x: Square): Square {
    Turn(Turn(Turn(x)))
  }

  // g on every column, with the message words p and then q.
  function OnColumns(x: Square, p: Quad, q: Quad): Square {
    Square(GQuad(x.c0, p.a, p.b), GQuad(x.c1, p.c, p.d), GQuad(x.c2, q.a, q.b), GQuad(x.c3, q.c, q.d))
  }

  function SquareRound(x: Square, m: Square): Square {
    TurnBack(OnColumns(Turn(OnColumns(x, m.c0, m.c1)), m.c2, m.c3))
  }

  // The message words of a round, in the order g takes them.
  function Taken(msg: Words16, row: Row): Square {
    Square(Quad(msg[row[0]], msg[row[1]], msg[row[2]], msg[row[3]]),
           Quad(msg[row[4]], msg[row[5]], msg[row[6]], msg[row[7]]),
           Quad(msg[row[8]], msg[row[9]], msg[row[10]], msg[row[11]]),
           Quad(msg[row[12]], msg[row[13]], msg[row[14]], msg[row[15]]))
  }

  lemma TurnedColumns(s: Words16)
    ensures Diagonals(s) == Turn(Columns(s)) && Columns(s) == TurnBack(Diagonals(s))
  {
  }

  predicate Apart(p: Places, q: Places) {
    && p.a != q.a && p.a != q.b && p.a != q.c && p.a != q.d
    && p.b != q.a && p.b != q.b && p.b != q.c && p.b != q.d
    && p.c != q.a && p.c != q.b && p.c != q.c && p.c != q.d
    && p.d != q.a && p.d != q.b && p.d != q.c && p.d != q.d
  }

  lemma GElsewhere(s: Words16, p: Places, q: Places, mx: word, my: word)
    requires Distinct(p) && Distinct(q) && Apart(p, q)
    ensures Get(G(s, p, mx, my), q) == Get(s, q)
  {
    hide GQuad;
  }

  lemma GHere(s: Words16, p: Places, mx: word, my: word)
    requires Distinct(p)
    ensures Get(G(s, p, mx, my), p) == GQuad(Get(s, p), mx, my)
  {
    hide GQuad;
  }

  lemma GOnColumn(s: Words16, mx: word, my: word)
    ensures var x := Columns(s);
            && Columns(G(s, PLACES[0], mx, my)) == x.(c0 := GQuad(x.c0, mx, my))
            && Columns(G(s, PLACES[1], mx, my)) == x.(c1 := GQuad(x.c1, mx, my))
            && Columns(G(s, PLACES[2], mx, my)) == x.(c2 := GQuad(x.c2, mx, my))
            && Columns(G(s, PLACES[3], mx, my)) == x.(c3 := GQuad(x.c3, mx, my))
  {
    GOnFour(s, Places(0, 4, 8, 12), Places(1, 5, 9, 13), Places(2, 6, 10, 14), Places(3, 7, 11, 15), mx, my);
    hide G, Get, GQuad;
  }

  lemma GOnDiagonal(s: Words16, mx: word, my: word)
    ensures var y := Diagonals(s);
            && Diagonals(G(s, PLACES[4], mx, my)) == y.(c0 := GQuad(y.c0, mx, my))
            && Diagonals(G(s, PLACES[5], mx, my)) == y.(c1 := GQuad(y.c1, mx, my))
            && Diagonals(G(s, PLACES[6], mx, my)) == y.(c2 := GQuad(y.c2, mx, my))
            && Diagonals(G(s, PLACES[7], mx, my)) == y.(c3 := GQuad(y.c3, mx, my))
  {
    GOnFour(s, Places(0, 5, 10, 15), Places(1, 6, 11, 12), Places(2, 7, 8, 13), Places(3, 4, 9, 14), mx, my);
    hide G, Get, GQuad;
  }

  // g on one of four groups of places that share none.
  lemma GOnFour(s: Words16, p: Places, q: Places, r: Places, t: Places, mx: word, my: word)
    requires Distinct(p) && Distinct(q) && Distinct(r) && Distinct(t)
    requires Apart(p, q) && Apart(p, r) && Apart(p, t) && Apart(q, r) && Apart(q, t) && Apart(r, t)
    ensures var x := Four(s, p, q, r, t);
            && Four(G(s, p, mx, my), p, q, r, t) == x.(c0 := GQuad(x.c0, mx, my))
            && Four(G(s, q, mx, my), p, q, r, t) == x.(c1 := GQuad(x.c1, mx, my))
            && Four(G(s, r, mx, my), p, q, r, t) == x.(c2 := GQuad(x.c2, mx, my))
            && Four(G(s, t, mx, my), p, q, r, t) == x.(c3 := GQuad(x.c3, mx, my))
  {
    hide G, Get, GQuad;
    GHere(s, p, mx, my);
    GHere(s, q, mx, my);
    GHere(s, r, mx, my);
    GHere(s, t, mx, my);
    GBetween(s, p, q, mx, my);
    GBetween(s, p, r, mx, my);
    GBetween(s, p, t, mx, my);
    GBetween(s, q, r, mx, my);
    GBetween(s, q, t, mx, my);
    GBetween(s, r, t, mx, my);
  }

  lemma GBetween(s: Words16, p: Places, q: Places, mx: word, my: word)
    requires Distinct(p) && Distinct(q) && Apart(p, q)
    ensures Get(G(s, p, mx, my), q) == Get(s, q) && Get(G(s, q, mx, my), p) == Get(s, p)
  {
    GElsewhere(s, p, q, mx, my);
    GElsewhere(s, q, p, mx, my);
    hide G, Get;
  }

  // A round is g on the four columns, then on the four diagonals.
  lemma {:induction false} RoundOfSquare(s: Words16, msg: Words16, row: Row)
    ensures Columns(Round(s, msg, row, STEPS)) == SquareRound(Columns(s), Taken(msg, row))
  {
    var m := Taken(msg, row);
    ColumnSteps(s, msg, row);
    var t := Round(s, msg, row, 4);
    TurnedColumns(t);
    DiagonalSteps(s, msg, row);
    TurnedColumns(Round(s, msg, row, STEPS));
    hide Columns, Diagonals, Round, G, GQuad, Turn;
  }

  lemma ColumnSteps(s: Words16, msg: Words16, row: Row)
    ensures var m := Taken(msg, row);
            Columns(Round(s, msg, row, 4)) == OnColumns(Columns(s), m.c0, m.c1)
  {
    hide G, GQuad, Columns;
    assert Round(s, msg, row, 0) == s;
    GOnColumn(s, msg[row[0]], msg[row[1]]);
    GOnColumn(Round(s, msg, row, 1), msg[row[2]], msg[row[3]]);
    GOnColumn(Round(s, msg, row, 2), msg[row[4]], msg[row[5]]);
    GOnColumn(Round(s, msg, row, 3), msg[row[6]], msg[row[7]]);
  }

  lemma DiagonalSteps(s: Words16, msg: Words16, row: Row)
    ensures var m := Taken(msg, row);
            Diagonals(Round(s, msg, row, STEPS)) == OnColumns(Diagonals(Round(s, msg, row, 4)), m.c2, m.c3)
  {
    hide G, GQuad, Diagonals;
    GOnDiagonal(Round(s, msg, row, 4), msg[row[8]], msg[row[9]]);
    GOnDiagonal(Round(s, msg, row, 5), msg[row[10]], msg[row[11]]);
    GOnDiagonal(Round(s, msg, row, 6), msg[row[12]], msg[row[13]]);
    GOnDiagonal(Round(s, msg, row, 7), msg[row[14]], msg[row[15]]);
  }

  // ------------------------------------------------------------------
  // A published value.

  // The bytes 0 to 63, sixteen to a line.
  const LINE0: seq<byte> := [0, 1, 2, 3, 4, 5, 6, 7, 8, 9, 10, 11, 12, 13, 14, 15]
  const LINE1: seq<byte> := [16, 17, 18, 19, 20, 21, 22, 23, 24, 25, 26, 27, 28, 29, 30, 31]
  const LINE2: seq<byte> := [32, 33, 34, 35, 36, 37, 38, 39, 40, 41, 42, 43, 44, 45, 46, 47]
  const LINE3: seq<byte> := [48, 49, 50, 51, 52, 53, 54, 55, 56, 57, 58, 59, 60, 61, 62, 63]

  const BLOCK: Bytes64 := LINE0 + LINE1 + LINE2 + LINE3

  const MESSAGE: Words16 :=
    [0x03020100, 0x07060504, 0x0B0A0908, 0x0F0E0D0C, 0x13121110, 0x17161514, 0x1B1A1918, 0x1F1E1D1C,
     0x23222120, 0x27262524, 0x2B2A2928, 0x2F2E2D2C, 0x33323130, 0x37363534, 0x3B3A3938, 0x3F3E3D3C]

  // The state by columns before the first round and after each round.
  const S0 :=
    Square(Quad(0x6A09E667, 0x510E527F, 0x6A09E667, 0x00000000), Quad(0xBB67AE85, 0x9B05688C, 0xBB67AE85, 0x00000000),
           Quad(0x3C6EF372, 0x1F83D9AB, 0x3C6EF372, 0x00000040), Quad(0xA54FF53A, 0x5BE0CD19, 0xA54FF53A, 0x0000000B))
  const S1 :=
    Square(Quad(0x841B353A, 0x13AC4CB6, 0x0A9A96E0, 0x05E7AB0B), Quad(0xBC762A99, 0xAB80B582, 0xC7F9BD09, 0xF1CA1402),
           Quad(0x7BC6F67C, 0x78D7C89F, 0x17FE2798, 0x458798AB), Quad(0x0DB12F4B, 0x44ADB812, 0xC15304DC, 0xB48BE36E))
  const S2 :=
    Square(Quad(0xBADA2BD4, 0x9C33E5B7, 0x1A159720, 0x5A047616), Quad(0x117A63C6, 0x06C6D7AF, 0xB4A1B01C, 0xE2193F4B),
           Quad(0x1098B66C, 0x00E3E701, 0xBB0C1B51, 0xBDEC2A97), Quad(0x58BD36D5, 0xE69BF088, 0xF7F9C5F5, 0x02886034))
  const S3 :=
    Square(Quad(0x9AF92CCD, 0xD0F47EE1, 0xCE5F0982, 0xB5926716), Quad(0x7F46F5A3, 0x3E258331, 0x729A0239, 0xF874085C),
           Quad(0x04C1D031, 0x10749322, 0xEBFC97F9, 0x27635083), Quad(0x106A65AF, 0x1D68CD00, 0x40E13997, 0x8E5EDD27))
  const S4 :=
    Square(Quad(0xED37CC74, 0x8002FCAA, 0x31060B64, 0x7C3F5E12), Quad(0xB9E66D6C, 0x95DC1075, 0xC1122100, 0x2EC17D26),
           Quad(0x9CB3211B, 0x461006E7, 0xFCC44624, 0x02C1F5AB), Quad(0x9ED6CBBC, 0x4A3B0E2C, 0x5997F509, 0xE4514841))
  const S5 :=
    Square(Quad(0xD91E3FD0, 0x41D2073D, 0xD374E5C9, 0x406BE449), Quad(0xE4C16DEC, 0xC9BD7F68, 0x328DCB2F, 0xD05C9474),
           Quad(0x011C3195, 0x3E343F11, 0xADFA68C6, 0x6B1D5423), Quad(0x24012AD6, 0x553A02CE, 0xFB2E3DFB, 0xBDFCD813))
  const S6 :=
    Square(Quad(0x430F218C, 0x90BCEE01, 0xE268E17B, 0x9D32468B), Quad(0x7793917D, 0x10553402, 0x6FAD9358, 0x8F4E4385),
           Quad(0x8273BEEA, 0x716586D3, 0x7506E2C7, 0x17D1DEB9), Quad(0x375C9AD6, 0x7E619F96, 0xAE8F410F, 0x8EEF9AE8))
  const S7 :=
    Square(Quad(0x47BD97D5, 0x9AB50003, 0x06CC7A9B, 0x3629AF11), Quad(0x8CC4D5D7, 0x4CBFC400, 0x58989F3D, 0x316368EB),
           Quad(0xB6E9D3FB, 0x69CD4536, 0xDD895B4C, 0xAEA00929), Quad(0xF5001539, 0xD8507434, 0x17462AEB, 0x404B25C6))

  // The message words of each round.
  const M0 :=
    Square(Quad(0x03020100, 0x07060504, 0x0B0A0908, 0x0F0E0D0C), Quad(0x13121110, 0x17161514, 0x1B1A1918, 0x1F1E1D1C),
           Quad(0x23222120, 0x27262524, 0x2B2A2928, 0x2F2E2D2C), Quad(0x33323130, 0x37363534, 0x3B3A3938, 0x3F3E3D3C))
  const M1 :=
    Square(Quad(0x0B0A0908, 0x1B1A1918, 0x0F0E0D0C, 0x2B2A2928), Quad(0x1F1E1D1C, 0x03020100, 0x13121110, 0x37363534),
           Quad(0x07060504, 0x2F2E2D2C, 0x33323130, 0x17161514), Quad(0x27262524, 0x3B3A3938, 0x3F3E3D3C, 0x23222120))
  const M2 :=
    Square(Quad(0x0F0E0D0C, 0x13121110, 0x2B2A2928, 0x33323130), Quad(0x37363534, 0x0B0A0908, 0x1F1E1D1C, 0x3B3A3938),
           Quad(0x1B1A1918, 0x17161514, 0x27262524, 0x03020100), Quad(0x2F2E2D2C, 0x3F3E3D3C, 0x23222120, 0x07060504))
  const M3 :=
    Square(Quad(0x2B2A2928, 0x1F1E1D1C, 0x33323130, 0x27262524), Quad(0x3B3A3938, 0x0F0E0D0C, 0x37363534, 0x3F3E3D3C),
           Quad(0x13121110, 0x03020100, 0x2F2E2D2C, 0x0B0A0908), Quad(0x17161514, 0x23222120, 0x07060504, 0x1B1A1918))
  const M4 :=
    Square(Quad(0x33323130, 0x37363534, 0x27262524, 0x2F2E2D2C), Quad(0x3F3E3D3C, 0x2B2A2928, 0x3B3A3938, 0x23222120),
           Quad(0x1F1E1D1C, 0x0B0A0908, 0x17161514, 0x0F0E0D0C), Quad(0x03020100, 0x07060504, 0x1B1A1918, 0x13121110))
  const M5 :=
    Square(Quad(0x27262524, 0x3B3A3938, 0x2F2E2D2C, 0x17161514), Quad(0x23222120, 0x33323130, 0x3F3E3D3C, 0x07060504),
           Quad(0x37363534, 0x0F0E0D0C, 0x03020100, 0x2B2A2928), Quad(0x0B0A0908, 0x1B1A1918, 0x13121110, 0x1F1E1D1C))
  const M6 :=
    Square(Quad(0x2F2E2D2C, 0x3F3E3D3C, 0x17161514, 0x03020100), Quad(0x07060504, 0x27262524, 0x23222120, 0x1B1A1918),
           Quad(0x3B3A3938, 0x2B2A2928, 0x0B0A0908, 0x33323130), Quad(0x0F0E0D0C, 0x13121110, 0x1F1E1D1C, 0x37363534))

  const OUTPUT: Words16 :=
    [0x4171ED4E, 0xD45C4AEA, 0x6B6088B7, 0xE2463FD2, 0xAC9CAF12, 0x7DDCACEB, 0xC76D4C1F, 0x981B51F2,
     0x6CC59CFC, 0xE3FF31B8, 0xE1E7A83E, 0xB209DFD1, 0x6727FD6E, 0xAA660067, 0xB123D082, 0x1BABE8DF]

  lemma TakenInRound0()
    ensures Taken(MESSAGE, ROW0) == M0
  {
  }

  lemma RoundIs0()
    ensures SquareRound(S0, M0) == S1
  {
  }

  lemma TakenInRound1()
    ensures Taken(MESSAGE, ROW1) == M1
  {
  }

  lemma RoundIs1()
    ensures SquareRound(S1, M1) == S2
  {
  }

  lemma TakenInRound2()
    ensures Taken(MESSAGE, ROW2) == M2
  {
  }

  lemma RoundIs2()
    ensures SquareRound(S2, M2) == S3
  {
  }

  lemma TakenInRound3()
    ensures Taken(MESSAGE, ROW3) == M3
  {
  }

  lemma RoundIs3()
    ensures SquareRound(S3, M3) == S4
  {
  }

  lemma TakenInRound4()
    ensures Taken(MESSAGE, ROW4) == M4
  {
  }

  lemma RoundIs4()
    ensures SquareRound(S4, M4) == S5
  {
  }

  lemma TakenInRound5()
    ensures Taken(MESSAGE, ROW5) == M5
  {
  }

  lemma RoundIs5()
    ensures SquareRound(S5, M5) == S6
  {
  }

  lemma TakenInRound6()
    ensures Taken(MESSAGE, ROW6) == M6
  {
  }

  lemma RoundIs6()
    ensures SquareRound(S6, M6) == S7
  {
  }

  lemma Line0Words()
    ensures WordsOf(LINE0) == MESSAGE[..4]
  {
  }

  lemma Line1Words()
    ensures WordsOf(LINE1) == MESSAGE[4..8]
  {
  }

  lemma Line2Words()
    ensures WordsOf(LINE2) == MESSAGE[8..12]
  {
  }

  lemma Line3Words()
    ensures WordsOf(LINE3) == MESSAGE[12..]
  {
  }

  lemma WordsOfConcat(a: seq<byte>, b: seq<byte>)
    requires |a| % 4 == 0 && |b| % 4 == 0
    ensures WordsOf(a + b) == WordsOf(a) + WordsOf(b)
  {
    hide Load;
  }

  lemma WordsOfLines(a: seq<byte>, b: seq<byte>, c: seq<byte>, d: seq<byte>)
    requires |a| == |b| == |c| == |d| == 16
    ensures WordsOf(a + b + c + d) == WordsOf(a) + WordsOf(b) + WordsOf(c) + WordsOf(d)
  {
    hide WordsOf;
    WordsOfConcat(a, b);
    WordsOfConcat(a + b, c);
    WordsOfConcat(a + b + c, d);
  }

  lemma Quarters(m: Words16)
    ensures m[..4] + m[4..8] + m[8..12] + m[12..] == m
  {
  }

  lemma MessageOfBlock()
    ensures WordsOf(BLOCK) == MESSAGE
  {
    hide WordsOf;
    Line0Words();
    Line1Words();
    Line2Words();
    Line3Words();
    WordsOfLines(LINE0, LINE1, LINE2, LINE3);
    Quarters(MESSAGE);
  }

  const CALL: Input := Input(IV, BLOCK, 64, 0, 11)

  lemma StartIs()
    ensures Columns(Initial(CALL)) == S0
  {
  }

  // One more round of the seven.
  lemma RoundTo(s: Words16, k: nat, x: Square, y: Square)
    requires k < ROUNDS && Columns(Mix(s, MESSAGE, k)) == x
    requires SquareRound(x, Taken(MESSAGE, MSG_SCHEDULE[k])) == y
    ensures Columns(Mix(s, MESSAGE, k + 1)) == y
  {
    RoundOfSquare(Mix(s, MESSAGE, k), MESSAGE, MSG_SCHEDULE[k]);
    hide Columns, Round, SquareRound, Taken;
  }

  lemma FinalState()
    ensures Columns(Mix(Initial(CALL), MESSAGE, ROUNDS)) == S7
  {
    hide Columns, SquareRound, Taken, Initial, Mix;
    StartIs();
    var s := Initial(CALL);
    MixNone(s);
    TakenInRound0();
    RoundIs0();
    RoundTo(s, 0, S0, S1);
    TakenInRound1();
    RoundIs1();
    RoundTo(s, 1, S1, S2);
    TakenInRound2();
    RoundIs2();
    RoundTo(s, 2, S2, S3);
    TakenInRound3();
    RoundIs3();
    RoundTo(s, 3, S3, S4);
    TakenInRound4();
    RoundIs4();
    RoundTo(s, 4, S4, S5);
    TakenInRound5();
    RoundIs5();
    RoundTo(s, 5, S5, S6);
    TakenInRound6();
    RoundIs6();
    RoundTo(s, 6, S6, S7);
  }

  lemma MixNone(s: Words16)
    ensures Mix(s, MESSAGE, 0) == s
  {
  }

  lemma FeedIs(v: Words16)
    requires Columns(v) == S7
    ensures Feed(v, IV) == OUTPUT
  {
  }

  // The compression of the 64 bytes 0 to 63, as the first block and the last
  // of a root: all sixteen words of the published output.
  lemma {:induction false} PublishedOutput()
    ensures Full(CALL) == OUTPUT
  {
    MessageOfBlock();
    FinalState();
    hide Columns, Mix, Initial, Feed, WordsOf;
    FeedIs(Mix(Initial(CALL), MESSAGE, ROUNDS));
  }
}
