/** SHA-256 as FIPS 180-4 defines it, over whole messages of bytes. */
module Sha256Standard {
  type Word = bv32
  type Byte = bv8

  // Section 4.1.2: the six logical functions; a rotation is written as two shifts.

  function Choose(x: Word, y: Word, z: Word): Word { (x & y) ^ (!x & z) }

  function Majority(x: Word, y: Word, z: Word): Word { (x & y) ^ (x & z) ^ (y & z) }

  function BigSigma0(x: Word): Word { ((x >> 2) | (x << 30)) ^ ((x >> 13) | (x << 19)) ^ ((x >> 22) | (x << 10)) }

  function BigSigma1(x: Word): Word { ((x >> 6) | (x << 26)) ^ ((x >> 11) | (x << 21)) ^ ((x >> 25) | (x << 7)) }

  function SmallSigma0(x: Word): Word { ((x >> 7) | (x << 25)) ^ ((x >> 18) | (x << 14)) ^ (x >> 3) }

  function SmallSigma1(x: Word): Word { ((x >> 17) | (x << 15)) ^ ((x >> 19) | (x << 13)) ^ (x >> 10) }

  /** Section 3.2: the shifts of each function join to rotations. */
  lemma SigmasAreRotations(x: Word)
    ensures BigSigma0(x) == x.RotateRight(2) ^ x.RotateRight(13) ^ x.RotateRight(22)
    ensures BigSigma1(x) == x.RotateRight(6) ^ x.RotateRight(11) ^ x.RotateRight(25)
    ensures SmallSigma0(x) == x.RotateRight(7) ^ x.RotateRight(18) ^ (x >> 3)
    ensures SmallSigma1(x) == x.RotateRight(17) ^ x.RotateRight(19) ^ (x >> 10)
  {
  }

  /** A bit of the choice comes from y where x has a one and from z where it has a zero. */
  lemma ChooseTakesBits(x: Word, y: Word, z: Word)
    ensures x & Choose(x, y, z) == x & y && !x & Choose(x, y, z) == !x & z
  {
  }

  /** Where two words agree, the majority is with them; it does not matter which two. */
  lemma MajorityAgrees(x: Word, y: Word, z: Word)
    ensures !(x ^ y) & Majority(x, y, z) == !(x ^ y) & x
    ensures Majority(x, y, z) == Majority(y, z, x)
  {
    MajorityRotates(x, y, z);
  }

  lemma MajorityRotates(x: Word, y: Word, z: Word)
    ensures Majority(x, y, z) == Majority(y, z, x)
  {
  }

  /** The bytes of a word, most significant first. */
  lemma JoinTakesBytes(a: Byte, b: Byte, c: Byte, d: Byte)
    ensures Join(a, b, c, d) >> 24 == a as Word && (Join(a, b, c, d) >> 16) & 0xff == b as Word
    ensures (Join(a, b, c, d) >> 8) & 0xff == c as Word && Join(a, b, c, d) & 0xff == d as Word
  {
  }

  /** The sum is the low half of the sum of wider words. */
  lemma PlusWraps(x: Word, y: Word)
    ensures Plus(x, y) as bv64 == ((x as bv64) + (y as bv64)) & 0xffff_ffff
  {
  }

  /** Addition modulo 2^32. */
  function Plus(x: Word, y: Word): Word { x + y }

  function Join(a: Byte, b: Byte, c: Byte, d: Byte): Word {
    ((a as Word) << 24) | ((b as Word) << 16) | ((c as Word) << 8) | (d as Word)
  }

  /**
    The word functions as one value. What follows is stated for any of them, so that
    proofs about blocks and padding do not depend on bits; STANDARD is the choice of SHA-256.
   */
  datatype Logic = Logic(
    plus: (Word, Word) -> Word,
    choose: (Word, Word, Word) -> Word,
    majority: (Word, Word, Word) -> Word,
    bigSigma0: Word -> Word,
    bigSigma1: Word -> Word,
    smallSigma0: Word -> Word,
    smallSigma1: Word -> Word,
    join: (Byte, Byte, Byte, Byte) -> Word)
  {
    function Sum4(a: Word, b: Word, c: Word, d: Word): Word { plus(plus(plus(a, b), c), d) }

    /** A sum of four words does not depend on the direction. */
    ghost predicate SumsReverse() { forall a, b, c, d :: Sum4(d, c, b, a) == Sum4(a, b, c, d) }
  }

  function Standard(): Logic {
    Logic((x, y) => Plus(x, y), (x, y, z) => Choose(x, y, z), (x, y, z) => Majority(x, y, z),
          x => BigSigma0(x), x => BigSigma1(x), x => SmallSigma0(x), x => SmallSigma1(x),
          (a, b, c, d) => Join(a, b, c, d))
  }

  lemma StandardSumsReverse()
    ensures Standard().SumsReverse()
  {
    forall a, b, c, d
      ensures Standard().Sum4(d, c, b, a) == Standard().Sum4(a, b, c, d)
    {
      PlusReversed(a, b, c, d);
    }
  }

  lemma PlusReversed(a: Word, b: Word, c: Word, d: Word)
    ensures Plus(Plus(Plus(d, c), b), a) == Plus(Plus(Plus(a, b), c), d)
  {
    calc {
      Plus(Plus(Plus(d, c), b), a);
      Plus(Plus(d + c, b), a);
      Plus(d + c + b, a);
      d + c + b + a;
      a + b + c + d;
      Plus(a + b + c, d);
      Plus(Plus(a + b, c), d);
      Plus(Plus(Plus(a, b), c), d);
    }
  }

  // Sections 4.2.2 and 5.3.3: the round constants and the initial hash value.

  const ROUND_CONSTANTS: seq<seq<Word>> := [
    [0x428a2f98, 0x71374491, 0xb5c0fbcf, 0xe9b5dba5, 0x3956c25b, 0x59f111f1, 0x923f82a4, 0xab1c5ed5],
    [0xd807aa98, 0x12835b01, 0x243185be, 0x550c7dc3, 0x72be5d74, 0x80deb1fe, 0x9bdc06a7, 0xc19bf174],
    [0xe49b69c1, 0xefbe4786, 0x0fc19dc6, 0x240ca1cc, 0x2de92c6f, 0x4a7484aa, 0x5cb0a9dc, 0x76f988da],
    [0x983e5152, 0xa831c66d, 0xb00327c8, 0xbf597fc7, 0xc6e00bf3, 0xd5a79147, 0x06ca6351, 0x14292967],
    [0x27b70a85, 0x2e1b2138, 0x4d2c6dfc, 0x53380d13, 0x650a7354, 0x766a0abb, 0x81c2c92e, 0x92722c85],
    [0xa2bfe8a1, 0xa81a664b, 0xc24b8b70, 0xc76c51a3, 0xd192e819, 0xd6990624, 0xf40e3585, 0x106aa070],
    [0x19a4c116, 0x1e376c08, 0x2748774c, 0x34b0bcb5, 0x391c0cb3, 0x4ed8aa4a, 0x5b9cca4f, 0x682e6ff3],
    [0x748f82ee, 0x78a5636f, 0x84c87814, 0x8cc70208, 0x90befffa, 0xa4506ceb, 0xbef9a3f7, 0xc67178f2]]

  function RoundConstant(t: nat): Word
    requires t < 64
  {
    ROUND_CONSTANTS[t / 8][t % 8]
  }

  const INITIAL: seq<Word> := [
    0x6a09e667, 0xbb67ae85, 0x3c6ef372, 0xa54ff53a, 0x510e527f, 0x9b05688c, 0x1f83d9ab, 0x5be0cd19]

  /** The first 64 prime numbers. */
  const PRIMES: seq<seq<nat>> := [
    [2, 3, 5, 7, 11, 13, 17, 19],
    [23, 29, 31, 37, 41, 43, 47, 53],
    [59, 61, 67, 71, 73, 79, 83, 89],
    [97, 101, 103, 107, 109, 113, 127, 131],
    [137, 139, 149, 151, 157, 163, 167, 173],
    [179, 181, 191, 193, 197, 199, 211, 223],
    [227, 229, 233, 239, 241, 251, 257, 263],
    [269, 271, 277, 281, 283, 293, 307, 311]]

  const TWO_32: nat := 0x1_0000_0000

  /** w is the first 32 bits of the fractional part of the cube root of p; c is the whole part. */
  predicate CubeRootFraction(w: nat, p: nat, c: nat) {
    var root := c * TWO_32 + w;
    root * root * root <= p * TWO_32 * TWO_32 * TWO_32 < (root + 1) * (root + 1) * (root + 1)
  }

  predicate SquareRootFraction(w: nat, p: nat, c: nat) {
    var root := c * TWO_32 + w;
    root * root <= p * TWO_32 * TWO_32 < (root + 1) * (root + 1)
  }

  // The constants are the ones the standard derives from the primes.

  ghost predicate RowOfCubeRoots(row: nat)
    requires row < 8
  {
    forall i | 0 <= i < 8 :: IsCubeRootFraction(ROUND_CONSTANTS[row][i] as nat, PRIMES[row][i])
  }

  ghost predicate IsCubeRootFraction(w: nat, p: nat) { exists c: nat :: CubeRootFraction(w, p, c) }

  ghost predicate IsSquareRootFraction(w: nat, p: nat) { exists c: nat :: SquareRootFraction(w, p, c) }

  lemma Row0()
    ensures RowOfCubeRoots(0)
  {
    assert CubeRootFraction(ROUND_CONSTANTS[0][0] as nat, PRIMES[0][0], 1);
    assert CubeRootFraction(ROUND_CONSTANTS[0][1] as nat, PRIMES[0][1], 1);
    assert CubeRootFraction(ROUND_CONSTANTS[0][2] as nat, PRIMES[0][2], 1);
    assert CubeRootFraction(ROUND_CONSTANTS[0][3] as nat, PRIMES[0][3], 1);
    assert CubeRootFraction(ROUND_CONSTANTS[0][4] as nat, PRIMES[0][4], 2);
    assert CubeRootFraction(ROUND_CONSTANTS[0][5] as nat, PRIMES[0][5], 2);
    assert CubeRootFraction(ROUND_CONSTANTS[0][6] as nat, PRIMES[0][6], 2);
    assert CubeRootFraction(ROUND_CONSTANTS[0][7] as nat, PRIMES[0][7], 2);
  }

  lemma Row1()
    ensures RowOfCubeRoots(1)
  {
    assert CubeRootFraction(ROUND_CONSTANTS[1][0] as nat, PRIMES[1][0], 2);
    assert CubeRootFraction(ROUND_CONSTANTS[1][1] as nat, PRIMES[1][1], 3);
    assert CubeRootFraction(ROUND_CONSTANTS[1][2] as nat, PRIMES[1][2], 3);
    assert CubeRootFraction(ROUND_CONSTANTS[1][3] as nat, PRIMES[1][3], 3);
    assert CubeRootFraction(ROUND_CONSTANTS[1][4] as nat, PRIMES[1][4], 3);
    assert CubeRootFraction(ROUND_CONSTANTS[1][5] as nat, PRIMES[1][5], 3);
    assert CubeRootFraction(ROUND_CONSTANTS[1][6] as nat, PRIMES[1][6], 3);
    assert CubeRootFraction(ROUND_CONSTANTS[1][7] as nat, PRIMES[1][7], 3);
  }

  lemma Row2()
    ensures RowOfCubeRoots(2)
  {
    assert CubeRootFraction(ROUND_CONSTANTS[2][0] as nat, PRIMES[2][0], 3);
    assert CubeRootFraction(ROUND_CONSTANTS[2][1] as nat, PRIMES[2][1], 3);
    assert CubeRootFraction(ROUND_CONSTANTS[2][2] as nat, PRIMES[2][2], 4);
    assert CubeRootFraction(ROUND_CONSTANTS[2][3] as nat, PRIMES[2][3], 4);
    assert CubeRootFraction(ROUND_CONSTANTS[2][4] as nat, PRIMES[2][4], 4);
    assert CubeRootFraction(ROUND_CONSTANTS[2][5] as nat, PRIMES[2][5], 4);
    assert CubeRootFraction(ROUND_CONSTANTS[2][6] as nat, PRIMES[2][6], 4);
    assert CubeRootFraction(ROUND_CONSTANTS[2][7] as nat, PRIMES[2][7], 4);
  }

  lemma Row3()
    ensures RowOfCubeRoots(3)
  {
    assert CubeRootFraction(ROUND_CONSTANTS[3][0] as nat, PRIMES[3][0], 4);
    assert CubeRootFraction(ROUND_CONSTANTS[3][1] as nat, PRIMES[3][1], 4);
    assert CubeRootFraction(ROUND_CONSTANTS[3][2] as nat, PRIMES[3][2], 4);
    assert CubeRootFraction(ROUND_CONSTANTS[3][3] as nat, PRIMES[3][3], 4);
    assert CubeRootFraction(ROUND_CONSTANTS[3][4] as nat, PRIMES[3][4], 4);
    assert CubeRootFraction(ROUND_CONSTANTS[3][5] as nat, PRIMES[3][5], 4);
    assert CubeRootFraction(ROUND_CONSTANTS[3][6] as nat, PRIMES[3][6], 5);
    assert CubeRootFraction(ROUND_CONSTANTS[3][7] as nat, PRIMES[3][7], 5);
  }

  lemma Row4()
    ensures RowOfCubeRoots(4)
  {
    assert CubeRootFraction(ROUND_CONSTANTS[4][0] as nat, PRIMES[4][0], 5);
    assert CubeRootFraction(ROUND_CONSTANTS[4][1] as nat, PRIMES[4][1], 5);
    assert CubeRootFraction(ROUND_CONSTANTS[4][2] as nat, PRIMES[4][2], 5);
    assert CubeRootFraction(ROUND_CONSTANTS[4][3] as nat, PRIMES[4][3], 5);
    assert CubeRootFraction(ROUND_CONSTANTS[4][4] as nat, PRIMES[4][4], 5);
    assert CubeRootFraction(ROUND_CONSTANTS[4][5] as nat, PRIMES[4][5], 5);
    assert CubeRootFraction(ROUND_CONSTANTS[4][6] as nat, PRIMES[4][6], 5);
    assert CubeRootFraction(ROUND_CONSTANTS[4][7] as nat, PRIMES[4][7], 5);
  }

  lemma Row5()
    ensures RowOfCubeRoots(5)
  {
    assert CubeRootFraction(ROUND_CONSTANTS[5][0] as nat, PRIMES[5][0], 5);
    assert CubeRootFraction(ROUND_CONSTANTS[5][1] as nat, PRIMES[5][1], 5);
    assert CubeRootFraction(ROUND_CONSTANTS[5][2] as nat, PRIMES[5][2], 5);
    assert CubeRootFraction(ROUND_CONSTANTS[5][3] as nat, PRIMES[5][3], 5);
    assert CubeRootFraction(ROUND_CONSTANTS[5][4] as nat, PRIMES[5][4], 5);
    assert CubeRootFraction(ROUND_CONSTANTS[5][5] as nat, PRIMES[5][5], 5);
    assert CubeRootFraction(ROUND_CONSTANTS[5][6] as nat, PRIMES[5][6], 5);
    assert CubeRootFraction(ROUND_CONSTANTS[5][7] as nat, PRIMES[5][7], 6);
  }

  lemma Row6()
    ensures RowOfCubeRoots(6)
  {
    assert CubeRootFraction(ROUND_CONSTANTS[6][0] as nat, PRIMES[6][0], 6);
    assert CubeRootFraction(ROUND_CONSTANTS[6][1] as nat, PRIMES[6][1], 6);
    assert CubeRootFraction(ROUND_CONSTANTS[6][2] as nat, PRIMES[6][2], 6);
    assert CubeRootFraction(ROUND_CONSTANTS[6][3] as nat, PRIMES[6][3], 6);
    assert CubeRootFraction(ROUND_CONSTANTS[6][4] as nat, PRIMES[6][4], 6);
    assert CubeRootFraction(ROUND_CONSTANTS[6][5] as nat, PRIMES[6][5], 6);
    assert CubeRootFraction(ROUND_CONSTANTS[6][6] as nat, PRIMES[6][6], 6);
    assert CubeRootFraction(ROUND_CONSTANTS[6][7] as nat, PRIMES[6][7], 6);
  }

  lemma Row7()
    ensures RowOfCubeRoots(7)
  {
    assert CubeRootFraction(ROUND_CONSTANTS[7][0] as nat, PRIMES[7][0], 6);
    assert CubeRootFraction(ROUND_CONSTANTS[7][1] as nat, PRIMES[7][1], 6);
    assert CubeRootFraction(ROUND_CONSTANTS[7][2] as nat, PRIMES[7][2], 6);
    assert CubeRootFraction(ROUND_CONSTANTS[7][3] as nat, PRIMES[7][3], 6);
    assert CubeRootFraction(ROUND_CONSTANTS[7][4] as nat, PRIMES[7][4], 6);
    assert CubeRootFraction(ROUND_CONSTANTS[7][5] as nat, PRIMES[7][5], 6);
    assert CubeRootFraction(ROUND_CONSTANTS[7][6] as nat, PRIMES[7][6], 6);
    assert CubeRootFraction(ROUND_CONSTANTS[7][7] as nat, PRIMES[7][7], 6);
  }

  /** Every round constant and every initial word comes from its prime. */
  lemma ConstantsComeFromPrimes(t: nat)
    requires t < 64
    ensures IsCubeRootFraction(RoundConstant(t) as nat, PRIMES[t / 8][t % 8])
    ensures t < 8 ==> IsSquareRootFraction(INITIAL[t] as nat, PRIMES[0][t])
  {
    Row0();
    Row1();
    Row2();
    Row3();
    Row4();
    Row5();
    Row6();
    Row7();
    assert RowOfCubeRoots(t / 8);
    InitialFromSquareRoots();
  }

  lemma InitialFromSquareRoots()
    ensures forall i | 0 <= i < 8 :: IsSquareRootFraction(INITIAL[i] as nat, PRIMES[0][i])
  {
    assert SquareRootFraction(INITIAL[0] as nat, PRIMES[0][0], 1);
    assert SquareRootFraction(INITIAL[1] as nat, PRIMES[0][1], 1);
    assert SquareRootFraction(INITIAL[2] as nat, PRIMES[0][2], 2);
    assert SquareRootFraction(INITIAL[3] as nat, PRIMES[0][3], 2);
    assert SquareRootFraction(INITIAL[4] as nat, PRIMES[0][4], 3);
    assert SquareRootFraction(INITIAL[5] as nat, PRIMES[0][5], 3);
    assert SquareRootFraction(INITIAL[6] as nat, PRIMES[0][6], 4);
    assert SquareRootFraction(INITIAL[7] as nat, PRIMES[0][7], 4);
  }

  // Section 5.1.1: padding to a multiple of 64 bytes.

  const TWO_64: nat := TWO_32 * TWO_32

  function Zeros(n: nat): seq<Byte> { seq(n, i => 0) }

  /** The number without its i lowest bytes. */
  function Shifted(n: nat, i: nat): nat { if i == 0 then n else Shifted(n, i - 1) / 256 }

  function ByteOf(n: nat, i: nat): Byte { (Shifted(n, i) % 256) as Byte }

  /** The length of a message in bits, modulo 2^64, as eight bytes, most significant first. */
  function LengthField(length: nat): (field: seq<Byte>)
    ensures |field| == 8
  {
    var bits := length * 8 % TWO_64;
    seq(8, i requires 0 <= i < 8 => ByteOf(bits, 7 - i))
  }

  lemma LengthFieldAt(length: nat, i: nat)
    requires i < 8
    ensures LengthField(length)[7 - i] == ByteOf(length * 8 % TWO_64, i)
  {
    assert 7 - (7 - i) == i;
  }

  /** Zero bytes between the end mark and the length field. */
  function Fill(length: nat): (k: nat)
    ensures k < 64 && (length + 1 + k) % 64 == 56
  {
    (119 - length % 64) % 64
  }

  /** The message, the end mark, as few zeros as make room, and the length in bits modulo 2^64. */
  function Pad(message: seq<Byte>): (padded: seq<Byte>)
    ensures |padded| % 64 == 0
  {
    message + [0x80] + Zeros(Fill(|message|)) + LengthField(|message|)
  }

  // Section 6.2.2: the hash computation.

  function WordAt(g: Logic, block: seq<Byte>, t: nat): Word
    requires 4 * t + 3 < |block|
  {
    g.join(block[4 * t], block[4 * t + 1], block[4 * t + 2], block[4 * t + 3])
  }

  function ScheduleWord(g: Logic, block: seq<Byte>, w: seq<Word>, t: nat): Word
    requires |block| == 64 && t <= |w| && t < 64
  {
    if t < 16 then WordAt(g, block, t)
    else g.Sum4(g.smallSigma1(w[t - 2]), w[t - 7], g.smallSigma0(w[t - 15]), w[t - 16])
  }

  /** The first n words of the message schedule. */
  function Schedule(g: Logic, block: seq<Byte>, n: nat): (w: seq<Word>)
    requires |block| == 64 && n <= 64
    ensures |w| == n
  {
    if n == 0 then []
    else
      var w := Schedule(g, block, n - 1);
      w + [ScheduleWord(g, block, w, n - 1)]
  }

  datatype Registers = Registers(a: Word, b: Word, c: Word, d: Word, e: Word, f: Word, g: Word, h: Word)

  function Round(g: Logic, r: Registers, t: nat, w: Word): Registers
    requires t < 64
  {
    var t1 := g.plus(g.Sum4(r.h, g.bigSigma1(r.e), g.choose(r.e, r.f, r.g), RoundConstant(t)), w);
    var t2 := g.plus(g.bigSigma0(r.a), g.majority(r.a, r.b, r.c));
    Registers(g.plus(t1, t2), r.a, r.b, r.c, g.plus(r.d, t1), r.e, r.f, r.g)
  }

  function Start(hash: seq<Word>): Registers
    requires |hash| == 8
  {
    Registers(hash[0], hash[1], hash[2], hash[3], hash[4], hash[5], hash[6], hash[7])
  }

  /** The registers after one round for each of the given words. */
  function Rounds(g: Logic, hash: seq<Word>, w: seq<Word>): Registers
    requires |hash| == 8 && |w| <= 64
  {
    if w == [] then Start(hash) else Round(g, Rounds(g, hash, w[..|w| - 1]), |w| - 1, w[|w| - 1])
  }

  function Add(g: Logic, hash: seq<Word>, r: Registers): (next: seq<Word>)
    requires |hash| == 8
    ensures |next| == 8
  {
    [g.plus(hash[0], r.a), g.plus(hash[1], r.b), g.plus(hash[2], r.c), g.plus(hash[3], r.d),
     g.plus(hash[4], r.e), g.plus(hash[5], r.f), g.plus(hash[6], r.g), g.plus(hash[7], r.h)]
  }

  /** A block has 64 bytes, and its schedule as many words. */
  function Compress(g: Logic, hash: seq<Word>, block: seq<Byte>): (next: seq<Word>)
    requires |hash| == 8 && |block| == 64
    ensures |next| == 8
  {
    Add(g, hash, Rounds(g, hash, Schedule(g, block, |block|)))
  }

  type Compression = (seq<Word>, seq<Byte>) -> seq<Word>

  function CompressionOf(g: Logic): Compression {
    (hash, block) => if |hash| == 8 && |block| == 64 then Compress(g, hash, block) else hash
  }

  /** The hash value after all the blocks of a string of bytes, for any compression. */
  function HashBlocks(f: Compression, bytes: seq<Byte>): seq<Word>
    requires |bytes| % 64 == 0
  {
    if bytes == [] then INITIAL else f(HashBlocks(f, bytes[..|bytes| - 64]), bytes[|bytes| - 64..])
  }

  /** Section 6.2 as a whole, for any compression; with that of Standard() it is SHA-256. */
  function Digest(f: Compression, message: seq<Byte>): seq<Word> { HashBlocks(f, Pad(message)) }

  function Sha256(message: seq<Byte>): seq<Word> { Digest(CompressionOf(Standard()), message) }

  lemma HashOneMore(f: Compression, bytes: seq<Byte>, block: seq<Byte>)
    requires |bytes| % 64 == 0 && |block| == 64
    ensures HashBlocks(f, bytes + block) == f(HashBlocks(f, bytes), block)
  {
    assert (bytes + block)[..|bytes|] == bytes && (bytes + block)[|bytes|..] == block;
  }

  lemma {:induction false} SchedulePrefix(g: Logic, block: seq<Byte>, m: nat, n: nat)
    requires |block| == 64 && m <= n <= 64
    ensures Schedule(g, block, n)[..m] == Schedule(g, block, m)
  {
    if m < n {
      SchedulePrefix(g, block, m, n - 1);
    }
  }

  /** The schedule satisfies the recurrence of the standard at every place. */
  lemma ScheduleRecurrence(g: Logic, block: seq<Byte>, t: nat, n: nat)
    requires |block| == 64 && t < n <= 64
    ensures Schedule(g, block, n)[t] == ScheduleWord(g, block, Schedule(g, block, n), t)
  {
    var w, before := Schedule(g, block, n), Schedule(g, block, t);
    SchedulePrefix(g, block, t, n);
    SchedulePrefix(g, block, t + 1, n);
    assert w[t] == w[..t + 1][t] == Schedule(g, block, t + 1)[t];
    assert forall i | 0 <= i < t :: w[i] == w[..t][i] == before[i];
  }

  /** Counting bytes modulo 2^64 is enough for the length field. */
  lemma LengthOfWrappedSize(n: nat)
    ensures LengthField(n % TWO_64) == LengthField(n)
  {
    var q, r := n / TWO_64, n % TWO_64;
    assert n * 8 == r * 8 + TWO_64 * (q * 8);
    MultipleVanishes(r * 8, q * 8);
  }

  lemma {:induction false} MultipleVanishes(a: nat, k: nat)
    ensures (a + TWO_64 * k) % TWO_64 == a % TWO_64
  {
    if k > 0 {
      MultipleVanishes(a, k - 1);
      assert a + TWO_64 * k == a + TWO_64 * (k - 1) + TWO_64;
    }
  }

  /** The padded message, when its unfinished block leaves room for the length, ends in one more block. */
  lemma PadInOneBlock(done: seq<Byte>, rest: seq<Byte>)
    requires |done| % 64 == 0 && |rest| < 56
    ensures Pad(done + rest) ==
            done + ((rest + [0x80]) + Zeros(56 - |rest + [0x80]|) + LengthField(|done + rest|))
  {
    assert Fill(|done + rest|) == 55 - |rest|;
  }

  /** Otherwise it ends in two. */
  lemma PadInTwoBlocks(done: seq<Byte>, rest: seq<Byte>)
    requires |done| % 64 == 0 && 56 <= |rest| < 64
    ensures Pad(done + rest) ==
            done + (rest + [0x80] + Zeros(63 - |rest|)) + ([] + Zeros(56) + LengthField(|done + rest|))
  {
    assert Fill(|done + rest|) == 119 - |rest|;
    assert Zeros(119 - |rest|) == Zeros(63 - |rest|) + Zeros(56);
  }

  /** The message is closed: the end mark is in, and the last block has room for the length. */
  ghost predicate Closed(before: seq<Byte>, rest: seq<Byte>, done: seq<Byte>, last: seq<Byte>)
    requires |rest| < 64
  {
    if |rest| < 56 then done == before && last == rest + [0x80]
    else done == before + (rest + [0x80] + Zeros(63 - |rest|)) && last == []
  }

  lemma ClosedThenPadded(before: seq<Byte>, rest: seq<Byte>, done: seq<Byte>, last: seq<Byte>)
    requires |before| % 64 == 0 && |rest| < 64 && Closed(before, rest, done, last)
    ensures |last| <= 56
    ensures Pad(before + rest) == done + (last + Zeros(56 - |last|) + LengthField(|before + rest|))
  {
    if |rest| < 56 {
      PadInOneBlock(before, rest);
    } else {
      PadInTwoBlocks(before, rest);
    }
  }
}
