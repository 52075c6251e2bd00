/** SHA-256 as FIPS 180-4 defines it: on 32-bit words, and on messages as strings of bits. */
module Sha256Spec {
  import opened Words

  // ----- Sections 3.2 and 4.1.2: functions -----

  /** The circular right shift. */
  function Rotr(n: nat, x: Word): Word
    requires n < 32
  {
    FromBits(Bits(x, 32)[32 - n..] + Bits(x, 32)[..32 - n])
  }

  /** The right shift. */
  function ShiftRight(n: nat, x: Word): Word
    requires n < 32
  {
    FromBits(Clear(n) + Bits(x, 32)[..32 - n])
  }

  function Ch(x: Word, y: Word, z: Word): Word { Xor(And(x, y), And(Not(x), z)) }

  function Maj(x: Word, y: Word, z: Word): Word { Xor(Xor(And(x, y), And(x, z)), And(y, z)) }

  function BigSigma0(x: Word): Word { Xor(Xor(Rotr(2, x), Rotr(13, x)), Rotr(22, x)) }

  function BigSigma1(x: Word): Word { Xor(Xor(Rotr(6, x), Rotr(11, x)), Rotr(25, x)) }

  function SmallSigma0(x: Word): Word { Xor(Xor(Rotr(7, x), Rotr(18, x)), ShiftRight(3, x)) }

  function SmallSigma1(x: Word): Word { Xor(Xor(Rotr(17, x), Rotr(19, x)), ShiftRight(10, x)) }

  /** Bit i of a rotated or shifted word. */
  lemma MovedBits(x: Word, n: nat, i: nat)
    requires n < 32 && i < 32
    ensures Bits(Rotr(n, x), 32)[i] <==> Bits(x, 32)[(i + 32 - n) % 32]
    ensures Bits(ShiftRight(n, x), 32)[i] <==> i >= n && Bits(x, 32)[i - n]
  {
    hide Bits;
  }

  /** Bit by bit, Ch chooses and Maj votes. */
  lemma ChoiceAndMajority(x: Word, y: Word, z: Word, i: nat)
    requires i < 32
    ensures Bits(Ch(x, y, z), 32)[i] <==> if Bits(x, 32)[i] then Bits(y, 32)[i] else Bits(z, 32)[i]
    ensures Bits(Maj(x, y, z), 32)[i] <==>
              (Bits(x, 32)[i] && Bits(y, 32)[i]) || (Bits(x, 32)[i] && Bits(z, 32)[i]) || (Bits(y, 32)[i] && Bits(z, 32)[i])
  {
    hide Bits, And, Xor, Not;
    OperationBits(x, y, i);
    OperationBits(Not(x), z, i);
    OperationBits(And(x, y), And(Not(x), z), i);
    OperationBits(x, z, i);
    OperationBits(y, z, i);
    OperationBits(And(x, y), And(x, z), i);
    OperationBits(Xor(And(x, y), And(x, z)), And(y, z), i);
  }

  /** Bit by bit, the sums of rotations are parities of bits of the word. */
  lemma SigmaBits(x: Word, i: nat)
    requires i < 32
    ensures var b := Bits(x, 32);
            && (Bits(BigSigma0(x), 32)[i] <==> (b[(i + 30) % 32] != (b[(i + 19) % 32] != b[(i + 10) % 32])))
            && (Bits(BigSigma1(x), 32)[i] <==> (b[(i + 26) % 32] != (b[(i + 21) % 32] != b[(i + 7) % 32])))
            && (Bits(SmallSigma0(x), 32)[i] <==> (b[(i + 25) % 32] != (b[(i + 14) % 32] != (i >= 3 && b[i - 3]))))
            && (Bits(SmallSigma1(x), 32)[i] <==> (b[(i + 15) % 32] != (b[(i + 13) % 32] != (i >= 10 && b[i - 10]))))
  {
    hide Bits, Xor, Rotr, ShiftRight;
    ParityAt(Rotr(2, x), Rotr(13, x), Rotr(22, x), i);
    ParityAt(Rotr(6, x), Rotr(11, x), Rotr(25, x), i);
    ParityAt(Rotr(7, x), Rotr(18, x), ShiftRight(3, x), i);
    ParityAt(Rotr(17, x), Rotr(19, x), ShiftRight(10, x), i);
    MovedBits(x, 2, i);
    MovedBits(x, 13, i);
    MovedBits(x, 22, i);
    MovedBits(x, 6, i);
    MovedBits(x, 11, i);
    MovedBits(x, 25, i);
    MovedBits(x, 7, i);
    MovedBits(x, 18, i);
    MovedBits(x, 3, i);
    MovedBits(x, 17, i);
    MovedBits(x, 19, i);
    MovedBits(x, 10, i);
  }

  lemma ParityAt(x: Word, y: Word, z: Word, i: nat)
    requires i < 32
    ensures Bits(Xor(Xor(x, y), z), 32)[i] <==> (Bits(x, 32)[i] != (Bits(y, 32)[i] != Bits(z, 32)[i]))
  {
    hide Bits, Xor;
    OperationBits(x, y, i);
    OperationBits(Xor(x, y), z, i);
  }

  // ----- Sections 4.2.2 and 5.3.3: constants -----

  /** The first 64 primes. */
  function Prime(i: nat): int
    requires i < 64
  {
    match i
    case 0 => 2 case 1 => 3 case 2 => 5 case 3 => 7 case 4 => 11 case 5 => 13 case 6 => 17 case 7 => 19
    case 8 => 23 case 9 => 29 case 10 => 31 case 11 => 37 case 12 => 41 case 13 => 43 case 14 => 47 case 15 => 53
    case 16 => 59 case 17 => 61 case 18 => 67 case 19 => 71 case 20 => 73 case 21 => 79 case 22 => 83 case 23 => 89
    case 24 => 97 case 25 => 101 case 26 => 103 case 27 => 107 case 28 => 109 case 29 => 113 case 30 => 127 case 31 => 131
    case 32 => 137 case 33 => 139 case 34 => 149 case 35 => 151 case 36 => 157 case 37 => 163 case 38 => 167 case 39 => 173
    case 40 => 179 case 41 => 181 case 42 => 191 case 43 => 193 case 44 => 197 case 45 => 199 case 46 => 211 case 47 => 223
    case 48 => 227 case 49 => 229 case 50 => 233 case 51 => 239 case 52 => 241 case 53 => 251 case 54 => 257 case 55 => 263
    case 56 => 269 case 57 => 271 case 58 => 277 case 59 => 281 case 60 => 283 case 61 => 293 case 62 => 307 case _ => 311
  }

  /** The round constants. */
  function RoundConstant(i: nat): Word
    requires i < 64
  {
    match i
    case 0 => 0x428a2f98 case 1 => 0x71374491 case 2 => 0xb5c0fbcf case 3 => 0xe9b5dba5
    case 4 => 0x3956c25b case 5 => 0x59f111f1 case 6 => 0x923f82a4 case 7 => 0xab1c5ed5
    case 8 => 0xd807aa98 case 9 => 0x12835b01 case 10 => 0x243185be case 11 => 0x550c7dc3
    case 12 => 0x72be5d74 case 13 => 0x80deb1fe case 14 => 0x9bdc06a7 case 15 => 0xc19bf174
    case 16 => 0xe49b69c1 case 17 => 0xefbe4786 case 18 => 0x0fc19dc6 case 19 => 0x240ca1cc
    case 20 => 0x2de92c6f case 21 => 0x4a7484aa case 22 => 0x5cb0a9dc case 23 => 0x76f988da
    case 24 => 0x983e5152 case 25 => 0xa831c66d case 26 => 0xb00327c8 case 27 => 0xbf597fc7
    case 28 => 0xc6e00bf3 case 29 => 0xd5a79147 case 30 => 0x06ca6351 case 31 => 0x14292967
    case 32 => 0x27b70a85 case 33 => 0x2e1b2138 case 34 => 0x4d2c6dfc case 35 => 0x53380d13
    case 36 => 0x650a7354 case 37 => 0x766a0abb case 38 => 0x81c2c92e case 39 => 0x92722c85
    case 40 => 0xa2bfe8a1 case 41 => 0xa81a664b case 42 => 0xc24b8b70 case 43 => 0xc76c51a3
    case 44 => 0xd192e819 case 45 => 0xd6990624 case 46 => 0xf40e3585 case 47 => 0x106aa070
    case 48 => 0x19a4c116 case 49 => 0x1e376c08 case 50 => 0x2748774c case 51 => 0x34b0bcb5
    case 52 => 0x391c0cb3 case 53 => 0x4ed8aa4a case 54 => 0x5b9cca4f case 55 => 0x682e6ff3
    case 56 => 0x748f82ee case 57 => 0x78a5636f case 58 => 0x84c87814 case 59 => 0x8cc70208
    case 60 => 0x90befffa case 61 => 0xa4506ceb case 62 => 0xbef9a3f7 case _ => 0xc67178f2
  }

  /** The initial hash value. */
  const H0: seq<Word> := [
    0x6a09e667, 0xbb67ae85, 0x3c6ef372, 0xa54ff53a,
    0x510e527f, 0x9b05688c, 0x1f83d9ab, 0x5be0cd19]

  /** k is the first 32 bits of the fractional part of the cube root of p, whose integer part
      is `whole`. */
  predicate CubeRootFraction(k: int, whole: int, p: int) {
    0 <= k < 0x1_0000_0000 &&
    var c := whole * 0x1_0000_0000 + k;
    c * c * c <= p * 0x1_0000_0000 * 0x1_0000_0000 * 0x1_0000_0000 < (c + 1) * (c + 1) * (c + 1)
  }

  /** h is the first 32 bits of the fractional part of the square root of p, whose integer part
      is `whole`. */
  predicate SquareRootFraction(h: int, whole: int, p: int) {
    0 <= h < 0x1_0000_0000 &&
    var c := whole * 0x1_0000_0000 + h;
    c * c <= p * 0x1_0000_0000 * 0x1_0000_0000 < (c + 1) * (c + 1)
  }

  // ----- Section 5.1.1: padding, bit by bit -----

  /** With k zero bits, the length field ends a block. */
  predicate Aligned(len: nat, k: nat) {
    (len + 1 + k) % 512 == 448
  }

  ghost predicate Padding(padded: seq<bool>, message: seq<bool>, k: nat) {
    && Aligned(|message|, k) && (forall j: nat :: Aligned(|message|, j) ==> k <= j)
    && padded == message + [true] + Clear(k) + Bits(|message|, 64)
  }

  /** The padded message: the bit 1, the smallest number of zero bits that makes the length
      448 modulo 512, and the length of the message in 64 bits. */
  ghost predicate IsPaddingOf(padded: seq<bool>, message: seq<bool>) {
    exists k: nat :: Padding(padded, message, k)
  }

  // ----- Sections 5.2.1 and 6.2.2: one block -----

  /** The t-th 32-bit word of a 512-bit block. */
  function BlockWord(block: seq<Byte>, t: nat): Word
    requires |block| == 64 && t < 16
  {
    FromBits(BitString(block)[32 * t..32 * t + 32])
  }

  /** The message schedule. */
  function W(block: seq<Byte>, t: nat): Word
    requires |block| == 64 && t < 64
  {
    if t < 16 then BlockWord(block, t)
    else (SmallSigma1(W(block, t - 2)) + W(block, t - 7) + SmallSigma0(W(block, t - 15)) + W(block, t - 16)) % WORD_LIMIT
  }

  datatype Vars = Vars(a: Word, b: Word, c: Word, d: Word, e: Word, f: Word, g: Word, h: Word)

  function Round(v: Vars, k: Word, w: Word): Vars {
    var t1 := v.h + BigSigma1(v.e) + Ch(v.e, v.f, v.g) + k + w;
    var t2 := BigSigma0(v.a) + Maj(v.a, v.b, v.c);
    Vars((t1 + t2) % WORD_LIMIT, v.a, v.b, v.c, (v.d + t1) % WORD_LIMIT, v.e, v.f, v.g)
  }

  /** The working variables after the first t rounds. */
  function Rounds(v: Vars, block: seq<Byte>, t: nat): Vars
    requires |block| == 64 && t <= 64
  {
    if t == 0 then v else Round(Rounds(v, block, t - 1), RoundConstant(t - 1), W(block, t - 1))
  }

  function ToVars(s: seq<Word>): Vars
    requires |s| == 8
  {
    Vars(s[0], s[1], s[2], s[3], s[4], s[5], s[6], s[7])
  }

  /** The intermediate hash value after one more block. */
  function Compress(hash: seq<Word>, block: seq<Byte>): (r: seq<Word>)
    requires |hash| == 8 && |block| == 64
    ensures |r| == 8
  {
    var v := Rounds(ToVars(hash), block, 64);
    [Add(hash[0], v.a), Add(hash[1], v.b), Add(hash[2], v.c), Add(hash[3], v.d),
     Add(hash[4], v.e), Add(hash[5], v.f), Add(hash[6], v.g), Add(hash[7], v.h)]
  }

  /** The intermediate hash value after the first n blocks of a padded message. */
  function HashBlocks(padded: seq<Byte>, n: nat): (r: seq<Word>)
    requires 64 * n <= |padded|
    ensures |r| == 8
  {
    if n == 0 then H0
    else Compress(HashBlocks(padded, n - 1), padded[64 * (n - 1)..64 * n])
  }
}
