/** Unsigned machine words as numbers and as strings of bits, most significant bit first. */
module Words {

  const WORD_LIMIT := 0x1_0000_0000

  type Byte = x: int | 0 <= x < 256
  type Word = x: int | 0 <= x < WORD_LIMIT

  function Pow2(n: nat): (r: nat)
    ensures r > 0
  {
    if n == 0 then 1 else 2 * Pow2(n - 1)
  }

  /** The lowest `width` bits of n. */
  function Bits(n: nat, width: nat): (r: seq<bool>)
    ensures |r| == width
  {
    if width == 0 then [] else Bits(n / 2, width - 1) + [n % 2 == 1]
  }

  /** The number that a string of bits denotes. */
  function Number(b: seq<bool>): nat {
    if |b| == 0 then 0 else 2 * Number(b[..|b| - 1]) + (if b[|b| - 1] then 1 else 0)
  }

  /** n zero bits. */
  function Clear(n: nat): (b: seq<bool>)
    ensures |b| == n && forall i :: 0 <= i < n ==> !b[i]
  {
    seq(n, i => false)
  }

  /** A string of bytes as the string of their bits. */
  function BitString(message: seq<Byte>): (r: seq<bool>)
    ensures |r| == 8 * |message|
  {
    if |message| == 0 then [] else BitString(message[..|message| - 1]) + Bits(message[|message| - 1], 8)
  }

  // ----- Numbers and bits -----

  lemma {:induction false} NumberBound(b: seq<bool>)
    ensures Number(b) < Pow2(|b|)
  {
    if |b| > 0 {
      NumberBound(b[..|b| - 1]);
    }
  }

  lemma {:induction false} BitsOfNumber(b: seq<bool>)
    ensures Bits(Number(b), |b|) == b
  {
    if |b| > 0 {
      BitsOfNumber(b[..|b| - 1]);
    }
  }

  lemma {:induction false} NumberOfBits(n: nat, width: nat)
    requires n < Pow2(width)
    ensures Number(Bits(n, width)) == n
  {
    if width > 0 {
      NumberOfBits(n / 2, width - 1);
      assert Bits(n, width)[..width - 1] == Bits(n / 2, width - 1);
    }
  }

  lemma Pow32()
    ensures Pow2(8) == 256 && Pow2(32) == WORD_LIMIT
  {
    assert Pow2(4) == 16;
    assert Pow2(8) == 256;
    assert Pow2(12) == 4096;
    assert Pow2(16) == 65536;
    assert Pow2(20) == 0x10_0000;
    assert Pow2(24) == 0x100_0000;
    assert Pow2(28) == 0x1000_0000;
  }

  /** Two words with the same bits are the same. */
  lemma SameBits(x: Word, y: Word)
    requires Bits(x, 32) == Bits(y, 32)
    ensures x == y
  {
    Pow32();
    NumberOfBits(x, 32);
    NumberOfBits(y, 32);
  }

  // ----- Division by powers of two -----

  lemma MulMono(a: nat, b: nat, d: nat)
    requires a <= b
    ensures a * d <= b * d
  {
  }

  lemma QuotientBound(q: nat, r: nat, q2: nat, r2: nat, d: nat)
    requires q2 * d + r2 == q * d + r && r < d
    ensures q2 <= q
  {
    assert (q + 1) * d == q * d + d;
    if q < q2 {
      MulMono(q + 1, q2, d);
    }
  }

  lemma DivModUnique(v: nat, d: nat, q: nat, r: nat)
    requires d > 0 && v == q * d + r && r < d
    ensures v / d == q && v % d == r
  {
    assert v == (v / d) * d + v % d;
    QuotientBound(q, r, v / d, v % d, d);
    QuotientBound(v / d, v % d, q, r, d);
  }

  /** The upper bits followed by the lower ones. */
  lemma {:induction false} BitsSplit(v: nat, high: nat, low: nat, q: nat, r: nat)
    requires v == q * Pow2(low) + r && r < Pow2(low)
    ensures Bits(v, high + low) == Bits(q, high) + Bits(r, low)
  {
    if low == 0 {
      assert Bits(v, high + low) == Bits(q, high);
    } else {
      var half := Pow2(low - 1);
      assert q * Pow2(low) == 2 * (q * half);
      BitsSplit(v / 2, high, low - 1, q, r / 2);
      assert Bits(v, high + low) == Bits(v / 2, high + (low - 1)) + [v % 2 == 1];
      assert Bits(r, low) == Bits(r / 2, low - 1) + [r % 2 == 1];
    }
  }

  /** The bits of zero. */
  lemma {:induction false} ZeroBits(width: nat)
    ensures Bits(0, width) == Clear(width)
  {
    if width > 0 {
      ZeroBits(width - 1);
    }
  }

  // ----- The operations on words -----

  function Add(x: Word, y: Word): Word {
    (x + y) % WORD_LIMIT
  }

  function FromBits(b: seq<bool>): (w: Word)
    requires |b| == 32
    ensures Bits(w, 32) == b
  {
    NumberBound(b);
    Pow32();
    BitsOfNumber(b);
    Number(b)
  }

  datatype BitOp = AND | OR | XOR

  function Apply(op: BitOp, p: bool, q: bool): bool {
    match op
    case AND => p && q
    case OR => p || q
    case XOR => p != q
  }

  function Zip(op: BitOp, a: seq<bool>, b: seq<bool>): (r: seq<bool>)
    requires |a| == |b|
    ensures |r| == |a|
  {
    if |a| == 0 then []
    else Zip(op, a[..|a| - 1], b[..|b| - 1]) + [Apply(op, a[|a| - 1], b[|b| - 1])]
  }

  function Invert(a: seq<bool>): (r: seq<bool>)
    ensures |r| == |a|
  {
    if |a| == 0 then [] else Invert(a[..|a| - 1]) + [!a[|a| - 1]]
  }

  function Bitwise(op: BitOp, x: Word, y: Word): Word {
    FromBits(Zip(op, Bits(x, 32), Bits(y, 32)))
  }

  function And(x: Word, y: Word): Word { Bitwise(AND, x, y) }

  function Or(x: Word, y: Word): Word { Bitwise(OR, x, y) }

  function Xor(x: Word, y: Word): Word { Bitwise(XOR, x, y) }

  function Not(x: Word): Word { FromBits(Invert(Bits(x, 32))) }

  lemma {:induction false} ZipAt(op: BitOp, a: seq<bool>, b: seq<bool>, i: nat)
    requires i < |a| == |b|
    ensures Zip(op, a, b)[i] == Apply(op, a[i], b[i])
  {
    if i < |a| - 1 {
      ZipAt(op, a[..|a| - 1], b[..|b| - 1], i);
    }
  }

  lemma BitwiseAt(op: BitOp, x: Word, y: Word, i: nat)
    requires i < 32
    ensures Bits(Bitwise(op, x, y), 32)[i] == Apply(op, Bits(x, 32)[i], Bits(y, 32)[i])
  {
    ZipAt(op, Bits(x, 32), Bits(y, 32), i);
  }

  lemma {:induction false} InvertAt(a: seq<bool>, i: nat)
    requires i < |a|
    ensures Invert(a)[i] <==> !a[i]
  {
    if i < |a| - 1 {
      InvertAt(a[..|a| - 1], i);
    }
  }

  /** Bit by bit, the operations are the logical ones. */
  lemma OperationBits(x: Word, y: Word, i: nat)
    requires i < 32
    ensures Bits(And(x, y), 32)[i] <==> Bits(x, 32)[i] && Bits(y, 32)[i]
    ensures Bits(Or(x, y), 32)[i] <==> Bits(x, 32)[i] || Bits(y, 32)[i]
    ensures Bits(Xor(x, y), 32)[i] <==> Bits(x, 32)[i] != Bits(y, 32)[i]
    ensures Bits(Not(x), 32)[i] <==> !Bits(x, 32)[i]
  {
    BitwiseAt(AND, x, y, i);
    BitwiseAt(OR, x, y, i);
    BitwiseAt(XOR, x, y, i);
    InvertAt(Bits(x, 32), i);
  }

  /** Bit i of a word, counted from the most significant one, by arithmetic. */
  lemma {:induction false} BitAt(n: nat, width: nat, i: nat)
    requires i < width
    ensures Bits(n, width)[i] <==> n / Pow2(width - 1 - i) % 2 == 1
  {
    if i < width - 1 {
      BitAt(n / 2, width - 1, i);
      DivTwice(n, 2, Pow2(width - 2 - i));
    }
  }

  lemma Quotient(n: nat, a: nat)
    requires a > 0
    ensures n == n / a * a + n % a && n % a < a
  {
  }

  lemma TwoQuotients(n: nat, a: nat, b: nat, q: nat, r: nat, p: nat, t: nat)
    requires n == q * a + r && r < a && q == p * b + t && t < b
    ensures n == p * (a * b) + (t * a + r) && t * a + r < a * b
  {
    Regroup(p, b, t, a, r);
    SmallRest(t, b, r, a);
  }

  lemma DivTwice(n: nat, a: nat, b: nat)
    requires a > 0 && b > 0
    ensures a * b > 0 && n / a / b == n / (a * b)
  {
    MulMono(1, a, b);
    var q, r := n / a, n % a;
    var p, t := q / b, q % b;
    Quotient(n, a);
    Quotient(q, b);
    TwoQuotients(n, a, b, q, r, p, t);
    DivModUnique(n, a * b, p, t * a + r);
  }

  lemma Regroup(p: nat, b: nat, t: nat, a: nat, r: nat)
    ensures (p * b + t) * a + r == p * (a * b) + (t * a + r)
  {
    Distribute(p, b, t, a);
    assert b * a == a * b;
  }

  lemma SmallRest(t: nat, b: nat, r: nat, a: nat)
    requires t < b && r < a
    ensures t * a + r < a * b
  {
    MulMono(t + 1, b, a);
    assert (t + 1) * a == t * a + a;
  }

  /** The machine's right shift. */
  function Shr(x: Word, n: nat): Word
    requires n < 32
  {
    DivBound(x, Pow2(n));
    x / Pow2(n)
  }

  /** The machine's left shift, which drops the bits that do not fit. */
  function Shl(x: Word, n: nat): Word
    requires n < 32
  {
    (x * Pow2(n)) % WORD_LIMIT
  }

  lemma DivBound(x: nat, d: nat)
    requires d > 0
    ensures 0 <= x / d <= x
  {
    if x / d > x {
      MulMono(x + 1, x / d, d);
      MulMono(1, d, x + 1);
      assert false;
    }
  }

  lemma {:induction false} Pow2Sum(a: nat, b: nat)
    ensures Pow2(a + b) == Pow2(a) * Pow2(b)
  {
    if a > 0 {
      Pow2Sum(a - 1, b);
      assert Pow2(a) * Pow2(b) == 2 * (Pow2(a - 1) * Pow2(b));
    }
  }

  /** A right shift moves the bits to the right and fills with zeros. */
  lemma ShrBits(x: Word, n: nat)
    requires n < 32
    ensures Bits(Shr(x, n), 32) == Clear(n) + Bits(x, 32)[..32 - n]
  {
    hide Pow2, Bits;
    var d := Pow2(n);
    var q, r := Shr(x, n), x % d;
    assert x == q * d + r;
    BitsSplit(x, 32 - n, n, q, r);
    Pow32();
    Pow2Sum(32 - n, n);
    if q >= Pow2(32 - n) {
      MulMono(Pow2(32 - n), q, d);
      assert false;
    }
    BitsSplit(q, n, 32 - n, 0, q);
    ZeroBits(n);
    assert Bits(q, n + (32 - n)) == Bits(q, 32);
    assert Bits(x, (32 - n) + n) == Bits(x, 32);
    assert Bits(x, 32)[..32 - n] == Bits(q, 32 - n);
  }

  lemma Distribute(q: nat, e: nat, r: nat, d: nat)
    ensures (q * e + r) * d == q * (e * d) + r * d
  {
  }

  lemma ProductBound(r: nat, e: nat, d: nat)
    requires r < e && d > 0
    ensures r * d < e * d
  {
    MulMono(r + 1, e, d);
    assert (r + 1) * d == r * d + d;
  }

  lemma TimesPow2(x: nat, n: nat, q: nat, r: nat)
    requires n < 32 && x == q * Pow2(32 - n) + r && r < Pow2(32 - n)
    ensures x * Pow2(n) == q * WORD_LIMIT + r * Pow2(n) && r * Pow2(n) < WORD_LIMIT
  {
    Pow32();
    Pow2Sum(32 - n, n);
    Distribute(q, Pow2(32 - n), r, Pow2(n));
    ProductBound(r, Pow2(32 - n), Pow2(n));
  }

  /** A left shift moves the bits to the left and fills with zeros. */
  lemma ShlBits(x: Word, n: nat)
    requires n < 32
    ensures Bits(Shl(x, n), 32) == Bits(x, 32)[n..] + Clear(n)
  {
    hide Pow2, Bits;
    var e := Pow2(32 - n);
    var q, r := x / e, x % e;
    DivBound(x, e);
    BitsSplit(x, n, 32 - n, q, r);
    assert Bits(x, n + (32 - n)) == Bits(x, 32);
    TimesPow2(x, n, q, r);
    DivModUnique(x * Pow2(n), WORD_LIMIT, q, r * Pow2(n));
    BitsSplit(r * Pow2(n), 32 - n, n, r, 0);
    ZeroBits(n);
    assert Bits(Shl(x, n), (32 - n) + n) == Bits(Shl(x, n), 32);
    assert Bits(x, 32)[n..] == Bits(r, 32 - n);
  }

  lemma SmallerQuotient(q: nat, top: nat, d: nat)
    requires q * d < top * d
    ensures q < top
  {
    if top <= q {
      MulMono(top, q, d);
    }
  }

  lemma SumFits(x: Word, y: nat, q: nat, low: nat)
    requires low < 32 && x == q * Pow2(low) && y < Pow2(low)
    ensures x + y < WORD_LIMIT
  {
    Pow32();
    Pow2Sum(32 - low, low);
    SmallerQuotient(q, Pow2(32 - low), Pow2(low));
    MulMono(q + 1, Pow2(32 - low), Pow2(low));
    assert (q + 1) * Pow2(low) == q * Pow2(low) + Pow2(low);
  }

  /** Or of two words that share no bit is their sum: the high word is a multiple of 2^low. */
  lemma OrIsSum(x: Word, y: Word, q: nat, low: nat)
    requires low < 32 && x == q * Pow2(low) && y < Pow2(low)
    ensures x + y < WORD_LIMIT && Or(x, y) == x + y
  {
    SumFits(x, y, q, low);
    BitsSplit(x, 32 - low, low, q, 0);
    BitsSplit(y, 32 - low, low, 0, y);
    BitsSplit(x + y, 32 - low, low, q, y);
    ZeroBits(low);
    ZeroBits(32 - low);
    JoinedBits(x, y, 32 - low, low, q);
    SameBits(Or(x, y), x + y);
  }

  lemma JoinedBits(x: Word, y: Word, high: nat, low: nat, q: nat)
    requires high + low == 32 && x + y < WORD_LIMIT
    requires Bits(x, high + low) == Bits(q, high) + Clear(low)
    requires Bits(y, high + low) == Clear(high) + Bits(y, low)
    requires Bits(x + y, high + low) == Bits(q, high) + Bits(y, low)
    ensures Bits(Or(x, y), 32) == Bits(x + y, 32)
  {
    forall i | 0 <= i < 32
      ensures Bits(Or(x, y), 32)[i] == Bits(x + y, 32)[i]
    {
      BitwiseAt(OR, x, y, i);
      assert Bits(x, 32)[i] == (i < high && Bits(q, high)[i]);
      assert Bits(y, 32)[i] == (i >= high && Bits(y, low)[i - high]);
    }
  }

  /** Masking with 0xff takes the remainder modulo 256. */
  lemma MaskIsRemainder(x: Word)
    ensures And(x, 0xff) == x % 256
  {
    Pow32();
    var q, r := x / 256, x % 256;
    BitsSplit(x, 24, 8, q, r);
    BitsSplit(255, 24, 8, 0, 255);
    BitsSplit(r, 24, 8, 0, r);
    ZeroBits(24);
    MaskedBits(x, q, r);
    SameBits(And(x, 0xff), r);
  }

  lemma MaskedBits(x: Word, q: nat, r: Word)
    requires Bits(x, 32) == Bits(q, 24) + Bits(r, 8)
    requires Bits(0xff, 32) == Clear(24) + Bits(0xff, 8)
    requires Bits(r, 32) == Clear(24) + Bits(r, 8)
    ensures Bits(And(x, 0xff), 32) == Bits(r, 32)
  {
    LowBitsSet();
    hide Bits, Bitwise;
    forall i | 0 <= i < 32
      ensures Bits(And(x, 0xff), 32)[i] == Bits(r, 32)[i]
    {
      BitwiseAt(AND, x, 0xff, i);
    }
  }

  lemma LowBitsSet()
    ensures forall i :: 0 <= i < 8 ==> Bits(0xff, 8)[i]
  {
    assert Bits(0xff, 8) == [true, true, true, true, true, true, true, true];
  }

  // ----- Byte strings -----

  lemma {:induction false} BitStringConcat(a: seq<Byte>, b: seq<Byte>)
    ensures BitString(a + b) == BitString(a) + BitString(b)
  {
    if |b| == 0 {
      assert a + b == a;
    } else {
      BitStringConcat(a, b[..|b| - 1]);
      assert (a + b)[..|a + b| - 1] == a + b[..|b| - 1];
    }
  }
}
