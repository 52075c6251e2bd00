/** The store's own SHA-256: a block loop over a fixed buffer, two cases of padding, and hex
    output, proved equal to FIPS 180-4. */
module Sha256 {
  import opened Words
  import opened Sha256Spec

  // ----- The bit functions as the program writes them -----

  function RotateRight(x: Word, n: nat): Word
    requires 0 < n < 32
  {
    Or(Shr(x, n), Shl(x, 32 - n))
  }

  function Sig0(x: Word): Word { Xor(Xor(RotateRight(x, 2), RotateRight(x, 13)), RotateRight(x, 22)) }

  function Sig1(x: Word): Word { Xor(Xor(RotateRight(x, 6), RotateRight(x, 11)), RotateRight(x, 25)) }

  function Gam0(x: Word): Word { Xor(Xor(RotateRight(x, 7), RotateRight(x, 18)), Shr(x, 3)) }

  function Gam1(x: Word): Word { Xor(Xor(RotateRight(x, 17), RotateRight(x, 19)), Shr(x, 10)) }

  /** A right shift and a left shift put together are a rotation. */
  lemma Rotation(x: Word, n: nat)
    requires 0 < n < 32
    ensures RotateRight(x, n) == Rotr(n, x)
  {
    hide Shr, Shl, Bits, Clear, Pow2, Bitwise;
    ShrBits(x, n);
    ShlBits(x, 32 - n);
    var bits := Bits(x, 32);
    forall i | 0 <= i < 32
      ensures Bits(RotateRight(x, n), 32)[i] == (bits[32 - n..] + bits[..32 - n])[i]
    {
      BitwiseAt(OR, Shr(x, n), Shl(x, 32 - n), i);
    }
    SameBits(RotateRight(x, n), Rotr(n, x));
  }

  lemma Shifting(x: Word, n: nat)
    requires n < 32
    ensures Shr(x, n) == ShiftRight(n, x)
  {
    ShrBits(x, n);
    SameBits(Shr(x, n), ShiftRight(n, x));
  }

  /** The program's bit functions are those of section 4.1.2. */
  lemma BitFunctions(x: Word)
    ensures Sig0(x) == BigSigma0(x)
    ensures Sig1(x) == BigSigma1(x)
    ensures Gam0(x) == SmallSigma0(x)
    ensures Gam1(x) == SmallSigma1(x)
  {
    Rotation(x, 2);
    Rotation(x, 13);
    Rotation(x, 22);
    Rotation(x, 6);
    Rotation(x, 11);
    Rotation(x, 25);
    Rotation(x, 7);
    Rotation(x, 18);
    Rotation(x, 17);
    Rotation(x, 19);
    Shifting(x, 3);
    Shifting(x, 10);
  }

  // ----- Reading a word from a block -----

  function LoadWord(b0: Byte, b1: Byte, b2: Byte, b3: Byte): Word {
    Or(Or(Or(Shl(b0, 24), Shl(b1, 16)), Shl(b2, 8)), b3)
  }

  /** A left shift that loses no bit multiplies by a power of two. */
  lemma ShlFits(b: Byte, n: nat, p: nat)
    requires n < 32 && Pow2(n) == p && b * p < WORD_LIMIT
    ensures Shl(b, n) == b * p
  {
    hide Pow2;
  }

  lemma ShlByte(b: Byte)
    ensures Shl(b, 24) == b * 0x100_0000 && Shl(b, 16) == b * 0x1_0000 && Shl(b, 8) == b * 0x100
  {
    hide Pow2, Shl;
    Powers();
    ShlFits(b, 24, 0x100_0000);
    ShlFits(b, 16, 0x1_0000);
    ShlFits(b, 8, 0x100);
  }

  lemma LoadIsBigEndian(b0: Byte, b1: Byte, b2: Byte, b3: Byte)
    ensures LoadWord(b0, b1, b2, b3) == b0 * 0x100_0000 + b1 * 0x1_0000 + b2 * 0x100 + b3
  {
    Powers();
    ShlByte(b0);
    ShlByte(b1);
    ShlByte(b2);
    hide Or, Shl, Pow2;
    OrIsSum(b0 * 0x100_0000, b1 * 0x1_0000, b0, 24);
    OrIsSum(b0 * 0x100_0000 + b1 * 0x1_0000, b2 * 0x100, b0 * 0x100 + b1, 16);
    OrIsSum(b0 * 0x100_0000 + b1 * 0x1_0000 + b2 * 0x100, b3, b0 * 0x1_0000 + b1 * 0x100 + b2, 8);
  }

  lemma Powers()
    ensures Pow2(8) == 0x100 && Pow2(16) == 0x1_0000 && Pow2(24) == 0x100_0000
  {
    Pow32();
    Pow2Sum(8, 8);
    Pow2Sum(16, 8);
  }

  /** The number that a string of bytes denotes. */
  function Value(bytes: seq<Byte>): nat {
    if |bytes| == 0 then 0 else Value(bytes[..|bytes| - 1]) * 0x100 + bytes[|bytes| - 1]
  }

  lemma {:induction false} ValueBits(bytes: seq<Byte>)
    ensures BitString(bytes) == Bits(Value(bytes), 8 * |bytes|)
  {
    if |bytes| > 0 {
      var most, last := bytes[..|bytes| - 1], bytes[|bytes| - 1];
      ValueBits(most);
      Pow32();
      BitsSplit(Value(bytes), 8 * |most|, 8, Value(most), last);
    }
  }

  lemma FourBytes(bytes: seq<Byte>, b0: Byte, b1: Byte, b2: Byte, b3: Byte)
    requires bytes == [b0, b1, b2, b3]
    ensures Value(bytes) == b0 * 0x100_0000 + b1 * 0x1_0000 + b2 * 0x100 + b3
  {
    var three := bytes[..3];
    var two := three[..2];
    assert Value(three) == Value(two) * 0x100 + b2;
    assert Value(two) == Value(two[..1]) * 0x100 + b1;
  }

  lemma BlockBits(block: seq<Byte>, t: nat)
    requires |block| == 64 && t < 16
    ensures BitString(block)[32 * t..32 * t + 32] == BitString(block[4 * t..4 * t + 4])
  {
    var before, four, after := block[..4 * t], block[4 * t..4 * t + 4], block[4 * t + 4..];
    assert block == before + four + after;
    BitStringConcat(before + four, after);
    BitStringConcat(before, four);
  }

  lemma LoadIsBlockWord(block: seq<Byte>, t: nat)
    requires |block| == 64 && t < 16
    ensures LoadWord(block[4 * t], block[4 * t + 1], block[4 * t + 2], block[4 * t + 3]) == W(block, t)
  {
    hide LoadWord, Bits, BitString, Number;
    var b0, b1, b2, b3 := block[4 * t], block[4 * t + 1], block[4 * t + 2], block[4 * t + 3];
    BlockBits(block, t);
    assert block[4 * t..4 * t + 4] == [b0, b1, b2, b3];
    LoadIsBigEndian(b0, b1, b2, b3);
    ValueBits(block[4 * t..4 * t + 4]);
    FourBytes(block[4 * t..4 * t + 4], b0, b1, b2, b3);
    SameBits(LoadWord(b0, b1, b2, b3), BlockWord(block, t));
  }

  // ----- One block, in place -----

  lemma AddMod(x: nat, y: nat)
    ensures (x % WORD_LIMIT + y) % WORD_LIMIT == (x + y) % WORD_LIMIT
  {
  }

  lemma AddFour(a: Word, b: Word, c: Word, d: Word)
    ensures Add(Add(Add(a, b), c), d) == (a + b + c + d) % WORD_LIMIT
  {
    AddMod(a + b, c);
    AddMod(a + b + c, d);
  }

  lemma AddFive(a: Word, b: Word, c: Word, d: Word, e: Word)
    ensures Add(Add(Add(Add(a, b), c), d), e) == (a + b + c + d + e) % WORD_LIMIT
  {
    AddFour(a, b, c, d);
    AddMod(a + b + c + d, e);
  }

  lemma AddModBoth(x: nat, y: nat)
    ensures Add(x % WORD_LIMIT, y % WORD_LIMIT) == (x + y) % WORD_LIMIT
  {
    AddMod(x, y % WORD_LIMIT);
    AddMod(y, x);
  }

  lemma ScheduleStep(w2: Word, w7: Word, w15: Word, w16: Word, block: seq<Byte>, i: nat)
    requires |block| == 64 && 16 <= i < 64
    requires w2 == W(block, i - 2) && w7 == W(block, i - 7) && w15 == W(block, i - 15) && w16 == W(block, i - 16)
    ensures Add(Add(Add(Gam1(w2), w7), Gam0(w15)), w16) == W(block, i)
  {
    BitFunctions(w2);
    BitFunctions(w15);
    hide Xor, Bitwise, RotateRight, FromBits, Gam0, Gam1, SmallSigma0, SmallSigma1, BlockWord;
    AddFour(Gam1(w2), w7, Gam0(w15), w16);
  }

  /** One round as the program computes it, with every sum reduced at once. */
  function ProgramRound(v: Vars, k: Word, w: Word): Vars {
    var t1 := Add(Add(Add(Add(v.h, Sig1(v.e)), Ch(v.e, v.f, v.g)), k), w);
    var t2 := Add(Sig0(v.a), Maj(v.a, v.b, v.c));
    Vars(Add(t1, t2), v.a, v.b, v.c, Add(v.d, t1), v.e, v.f, v.g)
  }

  lemma RoundStep(v: Vars, k: Word, w: Word)
    ensures ProgramRound(v, k, w) == Round(v, k, w)
  {
    BitFunctions(v.e);
    BitFunctions(v.a);
    hide *;
    ProgramRoundParts(v, k, w, BigSigma1(v.e), Ch(v.e, v.f, v.g), BigSigma0(v.a), Maj(v.a, v.b, v.c));
    RoundParts(v, k, w, BigSigma1(v.e), Ch(v.e, v.f, v.g), BigSigma0(v.a), Maj(v.a, v.b, v.c));
    RoundSums(v, BigSigma1(v.e), Ch(v.e, v.f, v.g), k, w, BigSigma0(v.a), Maj(v.a, v.b, v.c));
  }

  /** One round, given the two sums of section 6.2.2. */
  function RoundOf(v: Vars, t1: nat, t2: nat): Vars {
    Vars((t1 + t2) % WORD_LIMIT, v.a, v.b, v.c, (v.d + t1) % WORD_LIMIT, v.e, v.f, v.g)
  }

  lemma ProgramRoundParts(v: Vars, k: Word, w: Word, s1: Word, c: Word, s0: Word, m: Word)
    requires Sig1(v.e) == s1 && Sig0(v.a) == s0 && c == Ch(v.e, v.f, v.g) && m == Maj(v.a, v.b, v.c)
    ensures var t1 := Add(Add(Add(Add(v.h, s1), c), k), w);
            ProgramRound(v, k, w) == Vars(Add(t1, Add(s0, m)), v.a, v.b, v.c, Add(v.d, t1), v.e, v.f, v.g)
  {
    hide Add, Ch, Maj, Sig0, Sig1;
  }

  lemma RoundParts(v: Vars, k: Word, w: Word, s1: Word, c: Word, s0: Word, m: Word)
    requires s1 == BigSigma1(v.e) && s0 == BigSigma0(v.a) && c == Ch(v.e, v.f, v.g) && m == Maj(v.a, v.b, v.c)
    ensures Round(v, k, w) == RoundOf(v, v.h + s1 + c + k + w, s0 + m)
  {
    hide Ch, Maj, BigSigma0, BigSigma1;
  }

  lemma RoundSums(v: Vars, s1: Word, c: Word, k: Word, w: Word, s0: Word, m: Word)
    ensures var t1 := Add(Add(Add(Add(v.h, s1), c), k), w);
            RoundOf(v, v.h + s1 + c + k + w, s0 + m)
            == Vars(Add(t1, Add(s0, m)), v.a, v.b, v.c, Add(v.d, t1), v.e, v.f, v.g)
  {
    var sum := v.h + s1 + c + k + w;
    AddFive(v.h, s1, c, k, w);
    AddModBoth(sum, s0 + m);
    AddMod(sum, v.d);
  }

  /** The message schedule, filled in two loops. */
  method FillSchedule(w: array<Word>, block: seq<Byte>)
    requires w.Length == 64 && |block| == 64
    modifies w
    ensures forall t :: 0 <= t < 64 ==> w[t] == W(block, t)
  {
    hide *;
    for i := 0 to 16
      invariant forall t :: 0 <= t < i ==> w[t] == W(block, t)
    {
      LoadIsBlockWord(block, i);
      w[i] := LoadWord(block[i * 4], block[i * 4 + 1], block[i * 4 + 2], block[i * 4 + 3]);
    }
    for i := 16 to 64
      invariant forall t :: 0 <= t < i ==> w[t] == W(block, t)
    {
      ScheduleStep(w[i - 2], w[i - 7], w[i - 15], w[i - 16], block, i);
      w[i] := Add(Add(Add(Gam1(w[i - 2]), w[i - 7]), Gam0(w[i - 15])), w[i - 16]);
    }
  }

  method RunRounds(start: Vars, w: array<Word>, ghost block: seq<Byte>) returns (v: Vars)
    requires w.Length == 64 && |block| == 64
    requires forall t :: 0 <= t < 64 ==> w[t] == W(block, t)
    ensures v == Rounds(start, block, 64)
  {
    hide Sig0, Sig1, Ch, Maj, W, Round;
    var a, b, c, d := start.a, start.b, start.c, start.d;
    var e, f, g, h := start.e, start.f, start.g, start.h;
    for i := 0 to 64
      invariant Vars(a, b, c, d, e, f, g, h) == Rounds(start, block, i)
    {
      RoundStep(Vars(a, b, c, d, e, f, g, h), RoundConstant(i), w[i]);
      var t1 := Add(Add(Add(Add(h, Sig1(e)), Ch(e, f, g)), RoundConstant(i)), w[i]);
      var t2 := Add(Sig0(a), Maj(a, b, c));
      h := g;
      g := f;
      f := e;
      e := Add(d, t1);
      d := c;
      c := b;
      b := a;
      a := Add(t1, t2);
    }
    v := Vars(a, b, c, d, e, f, g, h);
  }

  method Transform(state: array<Word>, block: seq<Byte>)
    requires state.Length == 8 && |block| == 64
    modifies state
    ensures state[..] == Compress(old(state[..]), block)
  {
    hide Add, Rounds, W;
    var w := new Word[64] (i => 0);
    FillSchedule(w, block);
    var start := Vars(state[0], state[1], state[2], state[3], state[4], state[5], state[6], state[7]);
    var v := RunRounds(start, w, block);
    state[0] := Add(state[0], v.a);
    state[1] := Add(state[1], v.b);
    state[2] := Add(state[2], v.c);
    state[3] := Add(state[3], v.d);
    state[4] := Add(state[4], v.e);
    state[5] := Add(state[5], v.f);
    state[6] := Add(state[6], v.g);
    state[7] := Add(state[7], v.h);
  }

  // ----- The padded message, as bytes -----

  function Zeros(n: nat): (r: seq<Byte>)
    ensures |r| == n
  {
    seq(n, i => 0)
  }

  /** The last n bytes of the big-endian representation of v. */
  function BigEndian(v: nat, n: nat): (r: seq<Byte>)
    ensures |r| == n
  {
    if n == 0 then [] else BigEndian(v / 256, n - 1) + [v % 256]
  }

  /** How many zero bytes follow the byte 0x80. */
  function ZeroCount(len: nat): (z: nat)
    ensures z < 64 && (len + 1 + z) % 64 == 56
  {
    (55 - len) % 64
  }

  /** The length in bits as the program counts it, in 64 bits. */
  function BitLength(len: nat): nat {
    (len * 8) % 0x1_0000_0000_0000_0000
  }

  function Padded(data: seq<Byte>): (r: seq<Byte>)
    ensures |r| == |data| + 9 + ZeroCount(|data|)
  {
    data + [0x80] + Zeros(ZeroCount(|data|)) + BigEndian(BitLength(|data|), 8)
  }

  function BlockCount(len: nat): nat {
    (len + 9 + 63) / 64
  }

  lemma Blocks(len: nat, n: nat, rem: nat)
    requires len == 64 * n + rem && rem < 64
    ensures BlockCount(len) == if rem < 56 then n + 1 else n + 2
    ensures len + 9 + ZeroCount(len) == 64 * BlockCount(len)
  {
  }

  lemma PaddedBlocks(data: seq<Byte>)
    ensures |Padded(data)| == 64 * BlockCount(|data|)
  {
    hide Padded, ZeroCount, BlockCount;
    Blocks(|data|, |data| / 64, |data| % 64);
  }

  // ----- Hex output -----

  function HexDigit(d: int): char
    requires 0 <= d < 16
  {
    if d < 10 then ('0' as int + d) as char else ('a' as int + d - 10) as char
  }

  function HexByte(x: Byte): string {
    [HexDigit(x / 16), HexDigit(x % 16)]
  }

  function HexBytes(bytes: seq<Byte>): string {
    if |bytes| == 0 then "" else HexBytes(bytes[..|bytes| - 1]) + HexByte(bytes[|bytes| - 1])
  }

  /** The 256 bits of a hash value as 32 bytes. */
  function HashBytes(ws: seq<Word>): (r: seq<Byte>)
    ensures |r| == 4 * |ws|
  {
    if |ws| == 0 then [] else HashBytes(ws[..|ws| - 1]) + BigEndian(ws[|ws| - 1], 4)
  }

  predicate IsHex(s: string) {
    forall c :: c in s ==> '0' <= c <= '9' || 'a' <= c <= 'f'
  }

  lemma {:induction false} HexShape(bytes: seq<Byte>)
    ensures |HexBytes(bytes)| == 2 * |bytes| && IsHex(HexBytes(bytes))
  {
    if |bytes| > 0 {
      HexShape(bytes[..|bytes| - 1]);
    }
  }

  // ----- The digest -----

  /** The digest of a string of bytes, in hex. */
  function Digest(data: seq<Byte>): string {
    PaddedBlocks(data);
    HexBytes(HashBytes(HashBlocks(Padded(data), BlockCount(|data|))))
  }

  /** The digits, as characters. */
  lemma HexDigitIs(d: int)
    requires 0 <= d < 16
    ensures HexDigit(d) == "0123456789abcdef"[d]
  {
  }

  /** The eight hex digits of a word, the most significant one first. */
  function HexWord(v: Word): (text: string)
    ensures |text| == 8
  {
    var digits := "0123456789abcdef";
    [digits[v / 0x1000_0000], digits[v / 0x100_0000 % 16], digits[v / 0x10_0000 % 16], digits[v / 0x1_0000 % 16],
     digits[v / 0x1000 % 16], digits[v / 0x100 % 16], digits[v / 0x10 % 16], digits[v % 16]]
  }

  lemma Nibbles(u: nat)
    ensures u % 256 / 16 == u / 16 % 16 && u % 256 % 16 == u % 16
  {
  }

  lemma HexByteIs(u: nat)
    ensures HexByte(u % 256) == ["0123456789abcdef"[u / 16 % 16], "0123456789abcdef"[u % 16]]
  {
    hide HexDigit;
    Nibbles(u);
    HexDigitIs(u / 16 % 16);
    HexDigitIs(u % 16);
  }

  lemma FourHexBytes(a: Byte, b: Byte, c: Byte, d: Byte)
    ensures HexBytes([a, b, c, d]) == HexByte(a) + HexByte(b) + HexByte(c) + HexByte(d)
  {
    hide HexByte;
    var all := [a, b, c, d];
    assert HexBytes([]) == "" && [a][..0] == [];
    assert HexBytes([a]) == HexByte(a) && [a, b][..1] == [a];
    assert HexBytes([a, b]) == HexByte(a) + HexByte(b) && [a, b, c][..2] == [a, b];
    assert HexBytes([a, b, c]) == HexByte(a) + HexByte(b) + HexByte(c) && all[..3] == [a, b, c];
  }

  lemma HexWordIs(v: Word)
    ensures HexBytes(BigEndian(v, 4)) == HexWord(v)
  {
    hide HexBytes, HexByte, BigEndian;
    LastBytes(v);
    FourHexBytes(v / 0x100_0000 % 256, v / 0x1_0000 % 256, v / 0x100 % 256, v % 256);
    HexByteIs(v / 0x100_0000);
    HexByteIs(v / 0x1_0000);
    HexByteIs(v / 0x100);
    HexByteIs(v);
    HexParts(v);
  }

  lemma HexParts(v: Word)
    ensures v / 0x100_0000 / 16 % 16 == v / 0x1000_0000 && v / 0x1_0000 / 16 % 16 == v / 0x10_0000 % 16
    ensures v / 0x100 / 16 % 16 == v / 0x1000 % 16
  {
    DivTwice(v, 0x100_0000, 16);
    DivTwice(v, 0x1_0000, 16);
    DivTwice(v, 0x100, 16);
    SmallMod(v / 0x1000_0000);
  }

  lemma SmallMod(x: nat)
    requires x < 16
    ensures x % 16 == x
  {
  }

  lemma HexWords(ws: seq<Word>, j: nat)
    requires j < |ws|
    ensures HexBytes(HashBytes(ws[..j + 1])) == HexBytes(HashBytes(ws[..j])) + HexWord(ws[j])
  {
    hide HexBytes, HashBytes, BigEndian, HexWord;
    OneMoreWord(ws, j);
    HexConcat(HashBytes(ws[..j]), BigEndian(ws[j], 4));
    HexWordIs(ws[j]);
  }

  /** The digest is the hash value of the padded message: its eight words in turn, each as eight hex
      digits. */
  lemma DigestText(data: seq<Byte>)
    ensures |Padded(data)| == 64 * BlockCount(|data|)
    ensures var h := HashBlocks(Padded(data), BlockCount(|data|));
            Digest(data) == HexWord(h[0]) + HexWord(h[1]) + HexWord(h[2]) + HexWord(h[3])
                            + HexWord(h[4]) + HexWord(h[5]) + HexWord(h[6]) + HexWord(h[7])
  {
    hide *;
    PaddedBlocks(data);
    DigestDef(data);
    var h := HashBlocks(Padded(data), BlockCount(|data|));
    NoHex();
    HexWords(h, 0);
    HexWords(h, 1);
    HexWords(h, 2);
    HexWords(h, 3);
    HexWords(h, 4);
    HexWords(h, 5);
    HexWords(h, 6);
    HexWords(h, 7);
    assert h[..8] == h && h[..0] == [];
  }

  lemma DigestDef(data: seq<Byte>)
    ensures |Padded(data)| == 64 * BlockCount(|data|)
    ensures Digest(data) == HexBytes(HashBytes(HashBlocks(Padded(data), BlockCount(|data|))))
  {
    PaddedBlocks(data);
  }

  /** Every digest is 64 characters long and in lower-case hex. */
  lemma DigestShape(data: seq<Byte>)
    ensures |Digest(data)| == 64 && IsHex(Digest(data))
  {
    PaddedBlocks(data);
    HexShape(HashBytes(HashBlocks(Padded(data), BlockCount(|data|))));
  }

  method CopyIn(block: array<Byte>, data: seq<Byte>, i: nat, n: nat)
    requires block.Length == 64 && n <= 64 && i + n <= |data|
    modifies block
    ensures block[..n] == data[i..i + n]
  {
    for j := 0 to n
      invariant forall k :: 0 <= k < j ==> block[k] == data[i + k]
    {
      block[j] := data[i + j];
    }
  }

  /** Zero bytes up to position `to`; what comes before stays. */
  method ZeroFill(block: array<Byte>, from: nat, to: nat)
    requires block.Length == 64 && from <= to <= 64
    modifies block
    ensures block[..to] == old(block[..from]) + Zeros(to - from)
  {
    var rem := from;
    while rem < to
      invariant from <= rem <= to
      invariant block[..from] == old(block[..from])
      invariant forall k :: from <= k < rem ==> block[k] == 0
    {
      block[rem] := 0;
      rem := rem + 1;
    }
  }

  /** The length field, written from its last byte back. */
  method WriteLength(block: array<Byte>, len: nat)
    requires block.Length == 64
    modifies block
    ensures block[..56] == old(block[..56])
    ensures block[56..] == BigEndian(BitLength(len), 8)
  {
    var bitLen := BitLength(len);
    var j := 8;
    while j > 0
      invariant 0 <= j <= 8
      invariant block[..56] == old(block[..56])
      invariant BigEndian(bitLen, j) + block[56 + j..] == BigEndian(BitLength(len), 8)
    {
      j := j - 1;
      ghost var tail := block[57 + j..];
      assert BigEndian(bitLen, j + 1) == BigEndian(bitLen / 256, j) + [bitLen % 256];
      block[56 + j] := bitLen % 256;
      assert block[56 + j..] == [bitLen % 256] + tail;
      bitLen := bitLen / 256;
    }
    assert BigEndian(bitLen, 0) + block[56..] == block[56..];
  }

  lemma EmptyHash(padded: seq<Byte>)
    ensures HashBlocks(padded, 0) == H0
  {
  }

  /** One more block of a padded message. */
  lemma NextBlock(padded: seq<Byte>, n: nat, block: seq<Byte>)
    requires 64 * (n + 1) <= |padded| && block == padded[64 * n..64 * (n + 1)]
    ensures HashBlocks(padded, n + 1) == Compress(HashBlocks(padded, n), block)
  {
    hide Compress;
  }

  lemma DataBlock(data: seq<Byte>, n: nat)
    requires 64 * (n + 1) <= |data|
    ensures 64 * (n + 1) <= |Padded(data)| && data[64 * n..64 * (n + 1)] == Padded(data)[64 * n..64 * (n + 1)]
  {
    hide BigEndian, Zeros, ZeroCount, BitLength;
  }

  /** The blocks that are full before padding. */
  method FullBlocks(state: array<Word>, block: array<Byte>, data: seq<Byte>) returns (i: nat)
    requires state.Length == 8 && block.Length == 64 && state[..] == H0
    modifies state, block
    ensures i % 64 == 0 && i <= |data| < i + 64 && 64 * (i / 64) <= |Padded(data)|
    ensures state[..] == HashBlocks(Padded(data), i / 64)
  {
    hide *;
    i := 0;
    ghost var n: nat := 0;
    EmptyHash(Padded(data));
    while i + 64 <= |data|
      invariant i == 64 * n && i <= |data| && i <= |Padded(data)|
      invariant state[..] == HashBlocks(Padded(data), n)
    {
      CopyIn(block, data, i, 64);
      assert block[..] == block[..64];
      DataBlock(data, n);
      NextBlock(Padded(data), n, block[..]);
      Transform(state, block[..]);
      i := i + 64;
      n := n + 1;
    }
  }

  /** When there is no room for the length, the block before the last holds the end of the data. */
  lemma LongTail(data: seq<Byte>, n: nat, rem: nat)
    requires |data| == 64 * n + rem && 56 <= rem < 64
    ensures ZeroCount(|data|) == 64 - (rem + 1) + 56
    ensures |Padded(data)| == 64 * (n + 2)
    ensures data[64 * n..] + [0x80] + Zeros(64 - (rem + 1)) == Padded(data)[64 * n..64 * (n + 1)]
    ensures Zeros(56) + BigEndian(BitLength(|data|), 8) == Padded(data)[64 * (n + 1)..64 * (n + 2)]
  {
    hide BigEndian, BitLength;
  }

  lemma ShortTail(data: seq<Byte>, n: nat, rem: nat)
    requires |data| == 64 * n + rem && rem < 56
    ensures |Padded(data)| == 64 * (n + 1)
    ensures data[64 * n..] + [0x80] + Zeros(56 - (rem + 1)) + BigEndian(BitLength(|data|), 8) ==
            Padded(data)[64 * n..64 * (n + 1)]
  {
    hide BigEndian, BitLength;
  }

  /** The last block or the last two: the rest of the data, 0x80, zeros and the length. */
  method LastBlocks(state: array<Word>, block: array<Byte>, data: seq<Byte>, i: nat)
    requires state.Length == 8 && block.Length == 64
    requires i % 64 == 0 && i <= |data| < i + 64 && 64 * (i / 64) <= |Padded(data)|
    requires state[..] == HashBlocks(Padded(data), i / 64)
    modifies state, block
    ensures |Padded(data)| == 64 * BlockCount(|data|)
    ensures state[..] == HashBlocks(Padded(data), BlockCount(|data|))
  {
    hide *;
    ghost var n := i / 64;
    var rem := |data| - i;
    Blocks(|data|, n, rem);
    CopyIn(block, data, i, rem);
    assert data[i..i + rem] == data[64 * n..];
    block[rem] := 0x80;
    rem := rem + 1;
    assert block[..rem] == data[64 * n..] + [0x80];
    if rem > 56 {
      ZeroFill(block, rem, 64);
      assert block[..] == block[..64];
      LongTail(data, n, |data| - i);
      NextBlock(Padded(data), n, block[..]);
      Transform(state, block[..]);
      rem := 0;
      n := n + 1;
    } else {
      ShortTail(data, n, |data| - i);
    }
    ghost var start := block[..rem];
    ZeroFill(block, rem, 56);
    WriteLength(block, |data|);
    assert block[..] == block[..56] + block[56..];
    assert block[..] == start + Zeros(56 - rem) + BigEndian(BitLength(|data|), 8);
    NextBlock(Padded(data), n, block[..]);
    Transform(state, block[..]);
  }

  /** The k-th byte of a word, counted from the least significant one. */
  function ByteOf(v: Word, k: nat): (x: Byte)
    requires k < 4
    ensures x == Shr(v, k * 8) % 256
  {
    MaskIsRemainder(Shr(v, k * 8));
    And(Shr(v, k * 8), 0xff)
  }

  lemma ShiftedBytes(v: Word)
    ensures Shr(v, 0) == v && Shr(v, 8) == v / 0x100 && Shr(v, 16) == v / 0x1_0000 && Shr(v, 24) == v / 0x100_0000
  {
    Powers();
    assert Pow2(0) == 1;
  }

  lemma LastBytes(v: nat)
    ensures BigEndian(v, 4) == [v / 0x100_0000 % 256, v / 0x1_0000 % 256, v / 0x100 % 256, v % 256]
  {
    assert v / 0x100 / 0x100 == v / 0x1_0000;
    assert v / 0x1_0000 / 0x100 == v / 0x100_0000;
    assert BigEndian(v / 0x100_0000, 1) == [] + [v / 0x100_0000 % 256];
    assert BigEndian(v / 0x1_0000, 2) == BigEndian(v / 0x100_0000, 1) + [v / 0x1_0000 % 256];
    assert BigEndian(v / 0x100, 3) == BigEndian(v / 0x1_0000, 2) + [v / 0x100 % 256];
  }

  lemma ByteOfBigEndian(v: Word, k: nat)
    requires k < 4
    ensures ByteOf(v, k) == BigEndian(v, 4)[3 - k]
  {
    hide *;
    ShiftedBytes(v);
    LastBytes(v);
  }

  lemma {:induction false} HexConcat(a: seq<Byte>, b: seq<Byte>)
    ensures HexBytes(a + b) == HexBytes(a) + HexBytes(b)
  {
    if |b| == 0 {
      assert a + b == a;
    } else {
      HexConcat(a, b[..|b| - 1]);
      assert (a + b)[..|a + b| - 1] == a + b[..|b| - 1];
    }
  }

  lemma NoHex()
    ensures HexBytes([]) == "" && HexBytes(HashBytes([])) == ""
  {
  }

  lemma OneMoreHex(bytes: seq<Byte>, k: nat)
    requires k < |bytes|
    ensures HexBytes(bytes[..k + 1]) == HexBytes(bytes[..k]) + HexByte(bytes[k])
  {
    assert bytes[..k + 1][..k] == bytes[..k];
  }

  lemma OneMoreWord(ws: seq<Word>, j: nat)
    requires j < |ws|
    ensures HashBytes(ws[..j + 1]) == HashBytes(ws[..j]) + BigEndian(ws[j], 4)
  {
    assert ws[..j + 1][..j] == ws[..j];
  }

  method ToHex(state: array<Word>) returns (text: string)
    requires state.Length == 8
    ensures text == HexBytes(HashBytes(state[..]))
  {
    hide HexBytes, HashBytes, BigEndian, ByteOf;
    text := "";
    NoHex();
    for j := 0 to 8
      invariant text == HexBytes(HashBytes(state[..j]))
    {
      var v := state[j];
      ghost var start := text;
      ghost var bytes := BigEndian(v, 4);
      for k := 4 downto 0
        invariant text == start + HexBytes(bytes[..4 - k])
      {
        ByteOfBigEndian(v, k);
        var x := ByteOf(v, k);
        OneMoreHex(bytes, 3 - k);
        // Two columns, filled with zeros.
        text := text + (if x < 16 then "0" + [HexDigit(x)] else [HexDigit(x / 16), HexDigit(x % 16)]);
      }
      assert bytes[..4] == bytes;
      OneMoreWord(state[..8], j);
      assert state[..8][..j + 1] == state[..j + 1] && state[..8][..j] == state[..j];
      HexConcat(HashBytes(state[..j]), bytes);
    }
    assert state[..8] == state[..];
  }

  /** The program computes the digest, in exactly BlockCount(len) block transformations. */
  method ComputeSha256(data: seq<Byte>) returns (digest: string)
    ensures digest == Digest(data)
    ensures |digest| == 64 && IsHex(digest)
  {
    var state := new Word[8] [H0[0], H0[1], H0[2], H0[3], H0[4], H0[5], H0[6], H0[7]];
    assert state[..] == H0;
    var block := new Byte[64] (i => 0);
    var i := FullBlocks(state, block, data);
    LastBlocks(state, block, data, i);
    digest := ToHex(state);
    DigestShape(data);
  }

  // ----- The constants and the padding are those of the standard -----

  function CubeRoot(p: int): int {
    if p < 8 then 1 else if p < 27 then 2 else if p < 64 then 3 else if p < 125 then 4 else if p < 216 then 5 else 6
  }

  lemma RoundConstantsFrom0(i: nat)
    requires i < 8
    ensures RoundConstantOk(i)
  {
    hide RoundConstantOk;
    match i
    case 0 => IsCubeRoot(0, 0x428a2f98, 1, 2);
    case 1 => IsCubeRoot(1, 0x71374491, 1, 3);
    case 2 => IsCubeRoot(2, 0xb5c0fbcf, 1, 5);
    case 3 => IsCubeRoot(3, 0xe9b5dba5, 1, 7);
    case 4 => IsCubeRoot(4, 0x3956c25b, 2, 11);
    case 5 => IsCubeRoot(5, 0x59f111f1, 2, 13);
    case 6 => IsCubeRoot(6, 0x923f82a4, 2, 17);
    case 7 => IsCubeRoot(7, 0xab1c5ed5, 2, 19);
  }

  lemma RoundConstantsFrom8(i: nat)
    requires 8 <= i < 16
    ensures RoundConstantOk(i)
  {
    hide RoundConstantOk;
    match i
    case 8 => IsCubeRoot(8, 0xd807aa98, 2, 23);
    case 9 => IsCubeRoot(9, 0x12835b01, 3, 29);
    case 10 => IsCubeRoot(10, 0x243185be, 3, 31);
    case 11 => IsCubeRoot(11, 0x550c7dc3, 3, 37);
    case 12 => IsCubeRoot(12, 0x72be5d74, 3, 41);
    case 13 => IsCubeRoot(13, 0x80deb1fe, 3, 43);
    case 14 => IsCubeRoot(14, 0x9bdc06a7, 3, 47);
    case 15 => IsCubeRoot(15, 0xc19bf174, 3, 53);
  }

  lemma RoundConstantsFrom16(i: nat)
    requires 16 <= i < 24
    ensures RoundConstantOk(i)
  {
    hide RoundConstantOk;
    match i
    case 16 => IsCubeRoot(16, 0xe49b69c1, 3, 59);
    case 17 => IsCubeRoot(17, 0xefbe4786, 3, 61);
    case 18 => IsCubeRoot(18, 0x0fc19dc6, 4, 67);
    case 19 => IsCubeRoot(19, 0x240ca1cc, 4, 71);
    case 20 => IsCubeRoot(20, 0x2de92c6f, 4, 73);
    case 21 => IsCubeRoot(21, 0x4a7484aa, 4, 79);
    case 22 => IsCubeRoot(22, 0x5cb0a9dc, 4, 83);
    case 23 => IsCubeRoot(23, 0x76f988da, 4, 89);
  }

  lemma RoundConstantsFrom24(i: nat)
    requires 24 <= i < 32
    ensures RoundConstantOk(i)
  {
    hide RoundConstantOk;
    match i
    case 24 => IsCubeRoot(24, 0x983e5152, 4, 97);
    case 25 => IsCubeRoot(25, 0xa831c66d, 4, 101);
    case 26 => IsCubeRoot(26, 0xb00327c8, 4, 103);
    case 27 => IsCubeRoot(27, 0xbf597fc7, 4, 107);
    case 28 => IsCubeRoot(28, 0xc6e00bf3, 4, 109);
    case 29 => IsCubeRoot(29, 0xd5a79147, 4, 113);
    case 30 => IsCubeRoot(30, 0x06ca6351, 5, 127);
    case 31 => IsCubeRoot(31, 0x14292967, 5, 131);
  }

  lemma RoundConstantsFrom32(i: nat)
    requires 32 <= i < 40
    ensures RoundConstantOk(i)
  {
    hide RoundConstantOk;
    match i
    case 32 => IsCubeRoot(32, 0x27b70a85, 5, 137);
    case 33 => IsCubeRoot(33, 0x2e1b2138, 5, 139);
    case 34 => IsCubeRoot(34, 0x4d2c6dfc, 5, 149);
    case 35 => IsCubeRoot(35, 0x53380d13, 5, 151);
    case 36 => IsCubeRoot(36, 0x650a7354, 5, 157);
    case 37 => IsCubeRoot(37, 0x766a0abb, 5, 163);
    case 38 => IsCubeRoot(38, 0x81c2c92e, 5, 167);
    case 39 => IsCubeRoot(39, 0x92722c85, 5, 173);
  }

  lemma RoundConstantsFrom40(i: nat)
    requires 40 <= i < 48
    ensures RoundConstantOk(i)
  {
    hide RoundConstantOk;
    match i
    case 40 => IsCubeRoot(40, 0xa2bfe8a1, 5, 179);
    case 41 => IsCubeRoot(41, 0xa81a664b, 5, 181);
    case 42 => IsCubeRoot(42, 0xc24b8b70, 5, 191);
    case 43 => IsCubeRoot(43, 0xc76c51a3, 5, 193);
    case 44 => IsCubeRoot(44, 0xd192e819, 5, 197);
    case 45 => IsCubeRoot(45, 0xd6990624, 5, 199);
    case 46 => IsCubeRoot(46, 0xf40e3585, 5, 211);
    case 47 => IsCubeRoot(47, 0x106aa070, 6, 223);
  }

  lemma RoundConstantsFrom48(i: nat)
    requires 48 <= i < 56
    ensures RoundConstantOk(i)
  {
    hide RoundConstantOk;
    match i
    case 48 => IsCubeRoot(48, 0x19a4c116, 6, 227);
    case 49 => IsCubeRoot(49, 0x1e376c08, 6, 229);
    case 50 => IsCubeRoot(50, 0x2748774c, 6, 233);
    case 51 => IsCubeRoot(51, 0x34b0bcb5, 6, 239);
    case 52 => IsCubeRoot(52, 0x391c0cb3, 6, 241);
    case 53 => IsCubeRoot(53, 0x4ed8aa4a, 6, 251);
    case 54 => IsCubeRoot(54, 0x5b9cca4f, 6, 257);
    case 55 => IsCubeRoot(55, 0x682e6ff3, 6, 263);
  }

  lemma RoundConstantsFrom56(i: nat)
    requires 56 <= i < 64
    ensures RoundConstantOk(i)
  {
    hide RoundConstantOk;
    match i
    case 56 => IsCubeRoot(56, 0x748f82ee, 6, 269);
    case 57 => IsCubeRoot(57, 0x78a5636f, 6, 271);
    case 58 => IsCubeRoot(58, 0x84c87814, 6, 277);
    case 59 => IsCubeRoot(59, 0x8cc70208, 6, 281);
    case 60 => IsCubeRoot(60, 0x90befffa, 6, 283);
    case 61 => IsCubeRoot(61, 0xa4506ceb, 6, 293);
    case 62 => IsCubeRoot(62, 0xbef9a3f7, 6, 307);
    case 63 => IsCubeRoot(63, 0xc67178f2, 6, 311);
  }

  /** The round constants are the fractions of the cube roots of the first 64 primes. */
  lemma RoundConstants(i: nat)
    requires i < 64
    ensures RoundConstantOk(i)
  {
    hide RoundConstantOk;
    match i / 8
    case 0 => RoundConstantsFrom0(i);
    case 1 => RoundConstantsFrom8(i);
    case 2 => RoundConstantsFrom16(i);
    case 3 => RoundConstantsFrom24(i);
    case 4 => RoundConstantsFrom32(i);
    case 5 => RoundConstantsFrom40(i);
    case 6 => RoundConstantsFrom48(i);
    case 7 => RoundConstantsFrom56(i);
  }

  /** The initial hash value is the fractions of the square roots of the first 8 primes. */
  lemma InitialHash(i: nat)
    requires i < 8
    ensures InitialHashOk(i)
  {
    IsSquareRoot(0, 0x6a09e667, 1, 2);
    IsSquareRoot(1, 0xbb67ae85, 1, 3);
    IsSquareRoot(2, 0x3c6ef372, 2, 5);
    IsSquareRoot(3, 0xa54ff53a, 2, 7);
    IsSquareRoot(4, 0x510e527f, 3, 11);
    IsSquareRoot(5, 0x9b05688c, 3, 13);
    IsSquareRoot(6, 0x1f83d9ab, 4, 17);
    IsSquareRoot(7, 0x5be0cd19, 4, 19);
  }

  lemma IsCubeRoot(i: nat, k: int, whole: int, p: int)
    requires i < 64 && RoundConstant(i) == k && Prime(i) == p && CubeRoot(p) == whole && CubeRootFraction(k, whole, p)
    ensures RoundConstantOk(i)
  {
  }

  lemma IsSquareRoot(i: nat, h: int, whole: int, p: int)
    requires i < 8 && H0[i] == h && Prime(i) == p && SquareRoot(p) == whole && SquareRootFraction(h, whole, p)
    ensures InitialHashOk(i)
  {
  }

  predicate RoundConstantOk(i: nat)
    requires i < 64
  {
    CubeRootFraction(RoundConstant(i), CubeRoot(Prime(i)), Prime(i))
  }

  predicate InitialHashOk(i: nat)
    requires i < 8
  {
    SquareRootFraction(H0[i], SquareRoot(Prime(i)), Prime(i))
  }

  function SquareRoot(p: int): int {
    if p < 4 then 1 else if p < 9 then 2 else if p < 16 then 3 else 4
  }

  lemma {:induction false} ZeroBytes(n: nat)
    ensures BitString(Zeros(n)) == Clear(8 * n)
  {
    if n > 0 {
      ZeroBytes(n - 1);
      assert Zeros(n)[..n - 1] == Zeros(n - 1);
      ZeroBits(8);
    }
  }

  lemma {:induction false} BigEndianBits(v: nat, n: nat)
    ensures BitString(BigEndian(v, n)) == Bits(v, 8 * n)
  {
    if n > 0 {
      BigEndianBits(v / 256, n - 1);
      var bytes := BigEndian(v, n);
      assert bytes[..n - 1] == BigEndian(v / 256, n - 1);
      Pow32();
      BitsSplit(v, 8 * (n - 1), 8, v / 256, v % 256);
    }
  }

  lemma StopBit()
    ensures BitString([0x80]) == [true] + Clear(7)
  {
    assert BitString([]) == [];
    assert Bits(128, 8) == [true, false, false, false, false, false, false, false];
  }

  /** For every message shorter than 2^61 bytes, the bytes hashed are the padded message of
      section 5.1.1. */
  lemma PaddingIsStandard(data: seq<Byte>)
    requires |data| < 0x2000_0000_0000_0000
    ensures IsPaddingOf(BitString(Padded(data)), BitString(data))
  {
    hide *;
    PaddedBits(data);
    SmallestPadding(|data|);
    AnyPadding(BitString(Padded(data)), BitString(data), 7 + 8 * ZeroCount(|data|));
  }

  lemma AnyPadding(padded: seq<bool>, message: seq<bool>, k: nat)
    requires Aligned(|message|, k) && (forall j: nat :: Aligned(|message|, j) ==> k <= j)
    requires padded == message + [true] + Clear(k) + Bits(|message|, 64)
    ensures IsPaddingOf(padded, message)
  {
    hide Aligned, Clear, Bits;
    assert Padding(padded, message, k);
  }

  lemma PaddedBits(data: seq<Byte>)
    requires |data| < 0x2000_0000_0000_0000
    ensures BitString(Padded(data)) ==
            BitString(data) + [true] + Clear(7 + 8 * ZeroCount(|data|)) + Bits(8 * |data|, 64)
  {
    hide *;
    var z, length := ZeroCount(|data|), BigEndian(BitLength(|data|), 8);
    BitStringConcat(data + [0x80] + Zeros(z), length);
    BitStringConcat(data + [0x80], Zeros(z));
    BitStringConcat(data, [0x80]);
    StopBit();
    ZeroBytes(z);
    BitLengthFits(|data|);
    BigEndianBits(8 * |data|, 8);
    Regroup(BitString(data), z, Bits(8 * |data|, 64));
    PaddedParts(data);
  }

  lemma BitLengthFits(len: nat)
    requires len < 0x2000_0000_0000_0000
    ensures BitLength(len) == 8 * len
  {
  }

  lemma PaddedParts(data: seq<Byte>)
    ensures Padded(data) == data + [0x80] + Zeros(ZeroCount(|data|)) + BigEndian(BitLength(|data|), 8)
  {
  }

  lemma Regroup(bits: seq<bool>, z: nat, length: seq<bool>)
    ensures bits + ([true] + Clear(7)) + Clear(8 * z) + length ==
            bits + [true] + Clear(7 + 8 * z) + length
  {
    assert Clear(7) + Clear(8 * z) == Clear(7 + 8 * z);
  }

  lemma SmallestPadding(len: nat)
    ensures Aligned(8 * len, 7 + 8 * ZeroCount(len))
    ensures forall j: nat :: Aligned(8 * len, j) ==> 7 + 8 * ZeroCount(len) <= j
  {
    forall j: nat | Aligned(8 * len, j)
      ensures 7 + 8 * ZeroCount(len) <= j
    {
      PaddingModulo(len, j);
    }
    PaddingModulo(len, 7 + 8 * ZeroCount(len));
  }

  lemma PaddingModulo(len: nat, j: nat)
    ensures Aligned(8 * len, 7 + 8 * ZeroCount(len))
    ensures Aligned(8 * len, j) ==> 7 + 8 * ZeroCount(len) <= j
  {
    hide ZeroCount;
    var z := ZeroCount(len);
    var q := (len + 1 + z) / 64;
    assert len + 1 + z == 64 * q + 56;
    DivModUnique(8 * len + 8 + 8 * z, 512, q, 448);
    var p := (8 * len + 1 + j) / 512;
    if Aligned(8 * len, j) {
      assert 8 * len + 1 + j == 512 * p + 448;
      assert 7 + 8 * z - j == 512 * (q - p);
    }
  }
}
