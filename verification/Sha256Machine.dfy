/** SHA-256 on the 32-bit words of a machine: every operation that the definition of the digest uses
    is the one that the language itself provides on bit vectors. */
module Sha256Machine {
  import opened Words
  import opened Sha256Spec
  import opened Sha256

  type Register = bv32

  // ----- The machine's operations -----

  function Half(b: Register): Register { b >> 1 }

  predicate Odd(b: Register) { b & 1 == 1 }

  function Bit(b: Register): nat { if Odd(b) then 1 else 0 }

  function Both(b: Register, c: Register): Register { b & c }

  function Either(b: Register, c: Register): Register { b | c }

  function Differ(b: Register, c: Register): Register { b ^ c }

  function Flip(b: Register): Register { !b }

  function Plus(b: Register, c: Register): Register { b + c }

  /** The number in the last n bits. */
  function Low(b: Register, n: nat): nat
    decreases n
  {
    if n == 0 then 0 else 2 * Low(Half(b), n - 1) + Bit(b)
  }

  lemma {:induction false} LowBound(b: Register, n: nat)
    ensures Low(b, n) < Pow2(n)
    decreases n
  {
    hide Half, Odd;
    if n > 0 {
      LowBound(Half(b), n - 1);
    }
  }

  function Num(b: Register): Word {
    LowBound(b, 32);
    Pow32();
    Low(b, 32)
  }

  lemma LowBits(b: Register, n: nat)
    requires n > 0
    ensures Bits(Low(b, n), n) == Bits(Low(Half(b), n - 1), n - 1) + [Odd(b)]
  {
    hide Half, Odd;
    var half := Low(Half(b), n - 1);
    assert Low(b, n) / 2 == half && Low(b, n) % 2 == Bit(b);
  }

  // ----- The logical operations -----

  /** Bit by bit, d is the operation of b and c. */
  predicate Combined(op: BitOp, b: Register, c: Register, d: Register, n: nat)
    decreases n
  {
    n == 0 || ((Odd(d) <==> Apply(op, Odd(b), Odd(c))) && Combined(op, Half(b), Half(c), Half(d), n - 1))
  }

  lemma HalfBoth(b: Register, c: Register)
    ensures Half(Both(b, c)) == Both(Half(b), Half(c)) && (Odd(Both(b, c)) <==> Odd(b) && Odd(c))
  {
  }

  lemma HalfEither(b: Register, c: Register)
    ensures Half(Either(b, c)) == Either(Half(b), Half(c)) && (Odd(Either(b, c)) <==> Odd(b) || Odd(c))
  {
  }

  lemma HalfDiffer(b: Register, c: Register)
    ensures Half(Differ(b, c)) == Differ(Half(b), Half(c)) && (Odd(Differ(b, c)) <==> Odd(b) != Odd(c))
  {
  }

  lemma {:induction false} Combine(b: Register, c: Register, n: nat)
    ensures Combined(AND, b, c, Both(b, c), n)
    ensures Combined(OR, b, c, Either(b, c), n)
    ensures Combined(XOR, b, c, Differ(b, c), n)
    decreases n
  {
    hide Half, Odd, Both, Either, Differ;
    if n > 0 {
      HalfBoth(b, c);
      HalfEither(b, c);
      HalfDiffer(b, c);
      Combine(Half(b), Half(c), n - 1);
    }
  }

  lemma ZipSnoc(op: BitOp, a: seq<bool>, b: seq<bool>, p: bool, q: bool)
    requires |a| == |b|
    ensures Zip(op, a + [p], b + [q]) == Zip(op, a, b) + [Apply(op, p, q)]
  {
    hide Apply;
    assert (a + [p])[..|a|] == a && (b + [q])[..|b|] == b;
  }

  lemma {:induction false} ZipLow(op: BitOp, b: Register, c: Register, d: Register, n: nat)
    requires Combined(op, b, c, d, n)
    ensures Zip(op, Bits(Low(b, n), n), Bits(Low(c, n), n)) == Bits(Low(d, n), n)
    decreases n
  {
    if n > 0 {
      hide Bits, Low, Half, Odd, Apply, Zip;
      LowBits(b, n);
      LowBits(c, n);
      LowBits(d, n);
      ZipLow(op, Half(b), Half(c), Half(d), n - 1);
      ZipSnoc(op, Bits(Low(Half(b), n - 1), n - 1), Bits(Low(Half(c), n - 1), n - 1), Odd(b), Odd(c));
    }
  }

  lemma OneOperation(op: BitOp, b: Register, c: Register, d: Register)
    requires Combined(op, b, c, d, 32)
    ensures Bitwise(op, Num(b), Num(c)) == Num(d)
  {
    hide Bits, Low, Combined, Zip, Number;
    ZipLow(op, b, c, d, 32);
    SameBits(Bitwise(op, Num(b), Num(c)), Num(d));
  }

  lemma LogicIsMachine(b: Register, c: Register)
    ensures And(Num(b), Num(c)) == Num(Both(b, c))
    ensures Or(Num(b), Num(c)) == Num(Either(b, c))
    ensures Xor(Num(b), Num(c)) == Num(Differ(b, c))
  {
    hide Num, Bitwise, Combined, Both, Either, Differ;
    Combine(b, c, 32);
    OneOperation(AND, b, c, Both(b, c));
    OneOperation(OR, b, c, Either(b, c));
    OneOperation(XOR, b, c, Differ(b, c));
  }

  // ----- What the last bits depend on -----

  /** The words agree in their last n bits. */
  predicate Agree(d: Register, e: Register, n: nat)
    decreases n
  {
    n == 0 || ((Odd(d) <==> Odd(e)) && Agree(Half(d), Half(e), n - 1))
  }

  lemma {:induction false} AgreeLow(d: Register, e: Register, n: nat)
    requires Agree(d, e, n)
    ensures Low(d, n) == Low(e, n)
    decreases n
  {
    hide Half, Odd;
    if n > 0 {
      AgreeLow(Half(d), Half(e), n - 1);
    }
  }

  /** The mask has exactly its last n bits set. */
  predicate Mask(m: Register, n: nat)
    decreases n
  {
    if n == 0 then m == 0 else Odd(m) && Mask(Half(m), n - 1)
  }

  lemma Mask31()
    ensures Mask(0x7fff_ffff, 31)
  {
    assert Mask(0x0, 0);
    assert Mask(0x7, 3);
    assert Mask(0x3f, 6);
    assert Mask(0x1ff, 9);
    assert Mask(0xfff, 12);
    assert Mask(0x7fff, 15);
    assert Mask(0x3_ffff, 18);
    assert Mask(0x1f_ffff, 21);
    assert Mask(0xff_ffff, 24);
    assert Mask(0x7ff_ffff, 27);
    assert Mask(0x3fff_ffff, 30);
  }

  /** The words are the same under the mask. */
  predicate SameUnder(d: Register, e: Register, m: Register) { d & m == e & m }

  lemma HalfUnder(d: Register, e: Register, m: Register)
    requires SameUnder(d, e, m)
    ensures SameUnder(Half(d), Half(e), Half(m)) && (Odd(m) ==> (Odd(d) <==> Odd(e)))
  {
  }

  lemma {:induction false} UnderAgree(d: Register, e: Register, m: Register, k: nat, n: nat)
    requires n <= k && Mask(m, k) && SameUnder(d, e, m)
    ensures Agree(d, e, n)
    decreases n
  {
    hide Half, Odd, SameUnder;
    if n > 0 {
      HalfUnder(d, e, m);
      UnderAgree(Half(d), Half(e), Half(m), k - 1, n - 1);
    }
  }

  /** But for the first bit, the words are the same. */
  predicate SameRest(d: Register, e: Register) { SameUnder(d, e, 0x7fff_ffff) }

  /** The first bit does not count for the last 31. */
  lemma LastBitsOf(d: Register, e: Register, n: nat)
    requires n <= 31 && SameRest(d, e)
    ensures Low(d, n) == Low(e, n)
  {
    hide Low, SameUnder, Agree, Mask;
    Mask31();
    UnderAgree(d, e, 0x7fff_ffff, 31, n);
    AgreeLow(d, e, n);
  }

  // ----- Not -----

  lemma RawFlip(b: Register)
    ensures SameRest((!b) >> 1, !(b >> 1))
  {
  }

  lemma HalfOfFlip(b: Register)
    ensures Half(Flip(b)) == (!b) >> 1 && (Odd(Flip(b)) <==> !Odd(b))
  {
  }

  lemma FlipOfHalf(b: Register)
    ensures Flip(Half(b)) == !(b >> 1)
  {
  }

  lemma HalfFlip(b: Register)
    ensures SameRest(Half(Flip(b)), Flip(Half(b))) && (Odd(Flip(b)) <==> !Odd(b))
  {
    hide *;
    HalfOfFlip(b);
    FlipOfHalf(b);
    RawFlip(b);
  }

  lemma InvertSnoc(a: seq<bool>, p: bool)
    ensures Invert(a + [p]) == Invert(a) + [!p]
  {
    assert (a + [p])[..|a|] == a;
  }

  lemma {:induction false} InvertLow(b: Register, n: nat)
    requires n <= 32
    ensures Invert(Bits(Low(b, n), n)) == Bits(Low(Flip(b), n), n)
    decreases n
  {
    if n > 0 {
      hide Bits, Low, Half, Odd, Flip, Invert, SameRest;
      LowBits(b, n);
      LowBits(Flip(b), n);
      InvertLow(Half(b), n - 1);
      HalfFlip(b);
      LastBitsOf(Half(Flip(b)), Flip(Half(b)), n - 1);
      InvertSnoc(Bits(Low(Half(b), n - 1), n - 1), Odd(b));
    }
  }

  lemma NotIsMachine(b: Register)
    ensures Not(Num(b)) == Num(Flip(b))
  {
    hide Bits, Low, Invert, Number, Flip;
    InvertLow(b, 32);
    SameBits(Not(Num(b)), Num(Flip(b)));
  }

  // ----- Sums -----

  lemma DoubleMod(x: nat, bit: nat, p: nat)
    requires p > 0 && bit < 2
    ensures 2 * (x % p) + bit == (2 * x + bit) % (2 * p)
  {
    var q, r := x / p, x % p;
    assert x == q * p + r;
    assert 2 * x + bit == q * (2 * p) + (2 * r + bit);
    DivModUnique(2 * x + bit, 2 * p, q, 2 * r + bit);
  }

  predicate Carry(p: bool, q: bool, r: bool) {
    (p && q) || (p && r) || (q && r)
  }

  function One(p: bool): nat { if p then 1 else 0 }

  function Flag(p: bool): Register { if p then 1 else 0 }

  function Doubled(t: Register, p: Register): Register { Plus(Plus(t, t), p) }

  lemma Halves(b: Register)
    ensures b == Doubled(Half(b), Flag(Odd(b)))
  {
  }

  lemma HalfDoubled(t: Register, p: bool)
    ensures SameRest(Half(Doubled(t, Flag(p))), t) && (Odd(Doubled(t, Flag(p))) <==> p)
  {
  }

  lemma PlusLaws(a: Register, b: Register, c: Register)
    ensures Plus(Plus(a, b), c) == Plus(a, Plus(b, c)) && Plus(a, b) == Plus(b, a)
  {
  }

  lemma Rearranged(a: Register, b: Register, c: Register, d: Register)
    ensures Plus(Plus(a, b), Plus(c, d)) == Plus(Plus(a, c), Plus(b, d))
    ensures Plus(Plus(a, b), c) == Plus(a, Plus(b, c))
  {
    hide Plus;
    PlusLaws(a, b, Plus(c, d));
    PlusLaws(b, c, d);
    PlusLaws(c, b, d);
    PlusLaws(a, c, Plus(b, d));
    PlusLaws(a, b, c);
  }

  lemma SumOfDoubled(x: Register, p: Register, y: Register, q: Register, i: Register)
    ensures Plus(Plus(Doubled(x, p), Doubled(y, q)), i) == Doubled(Plus(x, y), Plus(Plus(p, q), i))
    ensures Doubled(x, Doubled(y, p)) == Doubled(Plus(x, y), p)
  {
    hide Plus;
    Rearranged(Plus(x, x), p, Plus(y, y), q);
    Rearranged(x, x, y, y);
    Rearranged(Plus(Plus(x, x), Plus(y, y)), Plus(p, q), i, i);
    Rearranged(Plus(x, x), Plus(y, y), p, p);
  }

  lemma SumOfFlags(p: bool, q: bool, r: bool)
    ensures Plus(Plus(Flag(p), Flag(q)), Flag(r)) == Doubled(Flag(Carry(p, q, r)), Flag(p != (q != r)))
  {
  }

  /** Adding with a carry, by halves. */
  lemma HalfSum(b: Register, c: Register, carry: bool)
    ensures SameRest(Half(Plus(Plus(b, c), Flag(carry))),
                     Plus(Plus(Half(b), Half(c)), Flag(Carry(Odd(b), Odd(c), carry))))
    ensures Odd(Plus(Plus(b, c), Flag(carry))) <==> (Odd(b) != (Odd(c) != carry))
  {
    hide *;
    var p, q := Odd(b), Odd(c);
    Halves(b);
    Halves(c);
    SumOfDoubled(Half(b), Flag(p), Half(c), Flag(q), Flag(carry));
    SumOfFlags(p, q, carry);
    SumOfDoubled(Plus(Half(b), Half(c)), Flag(p != (q != carry)), Flag(Carry(p, q, carry)), Flag(p), Flag(p));
    HalfDoubled(Plus(Plus(Half(b), Half(c)), Flag(Carry(p, q, carry))), p != (q != carry));
  }

  lemma SumStep(x: nat, y: nat, p: bool, q: bool, carry: bool, n: nat)
    requires n > 0
    ensures 2 * ((x + y + One(Carry(p, q, carry))) % Pow2(n - 1)) + One(p != (q != carry)) ==
            ((2 * x + One(p)) + (2 * y + One(q)) + One(carry)) % Pow2(n)
  {
    hide Pow2;
    PowDef(n);
    DoubleMod(x + y + One(Carry(p, q, carry)), One(p != (q != carry)), Pow2(n - 1));
  }

  /** Adding two words with a carry adds the numbers. */
  lemma {:induction false} SumLow(b: Register, c: Register, carry: bool, n: nat)
    requires n <= 32
    ensures Low(Plus(Plus(b, c), Flag(carry)), n) == (Low(b, n) + Low(c, n) + One(carry)) % Pow2(n)
    decreases n
  {
    if n > 0 {
      hide *;
      var next := Carry(Odd(b), Odd(c), carry);
      var sum := Plus(Plus(b, c), Flag(carry));
      HalfSum(b, c, carry);
      SumLow(Half(b), Half(c), next, n - 1);
      LastBitsOf(Half(sum), Plus(Plus(Half(b), Half(c)), Flag(next)), n - 1);
      SumStep(Low(Half(b), n - 1), Low(Half(c), n - 1), Odd(b), Odd(c), carry, n);
      LowDef(b, n);
      LowDef(c, n);
      LowDef(sum, n);
    }
  }

  lemma LowDef(b: Register, n: nat)
    requires n > 0
    ensures Low(b, n) == 2 * Low(Half(b), n - 1) + One(Odd(b))
  {
    hide Half, Odd;
  }

  lemma PowDef(n: nat)
    requires n > 0
    ensures Pow2(n) == 2 * Pow2(n - 1)
  {
  }

  lemma NoCarry(b: Register, c: Register)
    ensures Plus(Plus(b, c), Flag(false)) == Plus(b, c) && One(false) == 0
  {
  }

  lemma SumIsMachine(b: Register, c: Register)
    ensures Add(Num(b), Num(c)) == Num(Plus(b, c))
  {
    hide Low, Pow2, Plus, One, Flag;
    SumLow(b, c, false, 32);
    Pow32();
    NoCarry(b, c);
  }

  // ----- Shifts and rotations -----

  /** All bits are under the mask. */
  predicate Fits(d: Register, m: Register) { d & m == d }

  lemma HalfFits(d: Register, m: Register)
    requires Fits(d, m)
    ensures Fits(Half(d), Half(m)) && (m == 0 ==> !Odd(d))
  {
  }

  lemma {:induction false} NothingAbove(d: Register, m: Register, n: nat)
    requires Mask(m, n) && Fits(d, m)
    ensures Low(d, n + 1) == Low(d, n)
    decreases n
  {
    hide Half, Odd, Fits;
    HalfFits(d, m);
    if n > 0 {
      NothingAbove(Half(d), Half(m), n - 1);
    }
  }

  lemma HalfIsSmall(b: Register)
    ensures Fits(Half(b), 0x7fff_ffff)
  {
  }

  /** The number of a halved word. */
  lemma HalfIsMachine(b: Register)
    ensures Num(Half(b)) == Num(b) / 2
  {
    hide Low, Half, Odd, Fits, Mask;
    LowDef(b, 32);
    Mask31();
    HalfIsSmall(b);
    NothingAbove(Half(b), 0x7fff_ffff, 31);
  }

  function RightBy(b: Register, n: nat): Register
    requires n <= 32
  {
    Right(b, n as bv6)
  }

  function LeftBy(b: Register, n: nat): Register
    requires n <= 32
  {
    Left(b, n as bv6)
  }

  lemma NoShift(b: Register)
    ensures RightBy(b, 0) == b == LeftBy(b, 0)
  {
  }

  lemma OneLess(n: nat)
    requires 0 < n < 32
    ensures (n - 1) as bv6 == (n as bv6) - 1 && 0 < (n as bv6) < 32
  {
  }

  function Right(b: Register, n: bv6): Register
    requires n <= 32
  {
    b >> n
  }

  function Left(b: Register, n: bv6): Register
    requires n <= 32
  {
    b << n
  }

  lemma Further(b: Register, n: bv6)
    requires 0 < n < 32
    ensures Right(b, n) == Half(Right(b, n - 1))
    ensures Left(b, n) == Plus(Left(b, n - 1), Left(b, n - 1))
  {
  }

  lemma OneFurther(b: Register, n: nat)
    requires 0 < n < 32
    ensures RightBy(b, n) == Half(RightBy(b, n - 1))
    ensures LeftBy(b, n) == Plus(LeftBy(b, n - 1), LeftBy(b, n - 1))
  {
    hide Half, Plus, Right, Left;
    OneLess(n);
    Further(b, n as bv6);
  }

  lemma {:induction false} ShiftsAreMachine(b: Register, n: nat)
    requires n < 32
    ensures Shr(Num(b), n) == Num(RightBy(b, n))
    ensures Shl(Num(b), n) == Num(LeftBy(b, n))
    decreases n
  {
    hide Num, Half, RightBy, LeftBy, Plus;
    if n == 0 {
      NoShift(b);
    } else {
      ShiftsAreMachine(b, n - 1);
      OneFurther(b, n);
      PowDef(n);
      hide Pow2;
      HalfIsMachine(RightBy(b, n - 1));
      DivTwice(Num(b), Pow2(n - 1), 2);
      SumIsMachine(LeftBy(b, n - 1), LeftBy(b, n - 1));
      DoubleProduct(Num(b), Pow2(n - 1));
    }
  }

  lemma DoubleProduct(x: nat, p: nat)
    ensures Add(x * p % WORD_LIMIT, x * p % WORD_LIMIT) == x * (2 * p) % WORD_LIMIT
  {
    AddModBoth(x * p, x * p);
    assert x * p + x * p == x * (2 * p);
  }

  function Roll(b: Register, right: bv6, left: bv6): Register
    requires right <= 32 && left <= 32
  {
    Either(Right(b, right), Left(b, left))
  }

  function Rolled(b: Register, n: nat): Register
    requires 0 < n < 32
  {
    Roll(b, n as bv6, (32 - n) as bv6)
  }

  /** The circular shift of the standard, as a machine computes it. */
  lemma RotationIsMachine(b: Register, n: nat)
    requires 0 < n < 32
    ensures Rotr(n, Num(b)) == Num(Rolled(b, n))
  {
    hide *;
    Rotation(Num(b), n);
    ShiftsAreMachine(b, n);
    ShiftsAreMachine(b, 32 - n);
    LogicIsMachine(RightBy(b, n), LeftBy(b, 32 - n));
    RotateDef(Num(b), n);
    RolledDef(b, n);
  }

  lemma RotateDef(x: Word, n: nat)
    requires 0 < n < 32
    ensures RotateRight(x, n) == Or(Shr(x, n), Shl(x, 32 - n))
  {
  }

  lemma RolledDef(b: Register, n: nat)
    requires 0 < n < 32
    ensures Rolled(b, n) == Either(RightBy(b, n), LeftBy(b, 32 - n))
  {
    hide Either, Right, Left;
  }

  // ----- The functions of the standard -----

  function Parity(x: Register, y: Register, z: Register): Register { Differ(Differ(x, y), z) }

  function Sums0(x: Register): Register {
    Parity(Roll(x, 2, 30), Roll(x, 13, 19), Roll(x, 22, 10))
  }

  function Sums1(x: Register): Register {
    Parity(Roll(x, 6, 26), Roll(x, 11, 21), Roll(x, 25, 7))
  }

  function Mixed0(x: Register): Register {
    Parity(Roll(x, 7, 25), Roll(x, 18, 14), Right(x, 3))
  }

  function Mixed1(x: Register): Register {
    Parity(Roll(x, 17, 15), Roll(x, 19, 13), Right(x, 10))
  }

  function Choice(x: Register, y: Register, z: Register): Register { (x & y) ^ ((!x) & z) }

  function Majority(x: Register, y: Register, z: Register): Register { Parity(x & y, x & z, y & z) }

  /** The amounts, as numbers and as the machine takes them. */
  lemma Amounts(x: Register)
    ensures Rolled(x, 2) == Roll(x, 2, 30) && Rolled(x, 13) == Roll(x, 13, 19) && Rolled(x, 22) == Roll(x, 22, 10)
    ensures Rolled(x, 6) == Roll(x, 6, 26) && Rolled(x, 11) == Roll(x, 11, 21) && Rolled(x, 25) == Roll(x, 25, 7)
    ensures Rolled(x, 7) == Roll(x, 7, 25) && Rolled(x, 18) == Roll(x, 18, 14)
    ensures Rolled(x, 17) == Roll(x, 17, 15) && Rolled(x, 19) == Roll(x, 19, 13)
    ensures RightBy(x, 3) == Right(x, 3) && RightBy(x, 10) == Right(x, 10)
  {
    hide Roll, Right;
  }

  lemma ChoiceDef(x: Register, y: Register, z: Register)
    ensures Choice(x, y, z) == Differ(Both(x, y), Both(Flip(x), z))
  {
  }

  lemma MajorityDef(x: Register, y: Register, z: Register)
    ensures Majority(x, y, z) == Parity(Both(x, y), Both(x, z), Both(y, z))
  {
  }

  lemma ParityIsMachine(x: Register, y: Register, z: Register)
    ensures Xor(Xor(Num(x), Num(y)), Num(z)) == Num(Parity(x, y, z))
  {
    hide Num, Xor, Differ;
    LogicIsMachine(x, y);
    LogicIsMachine(Differ(x, y), z);
  }

  lemma ShiftIsMachine(x: Register, n: nat)
    requires n < 32
    ensures ShiftRight(n, Num(x)) == Num(RightBy(x, n))
  {
    hide *;
    ShiftsAreMachine(x, n);
    Shifting(Num(x), n);
  }

  /** The functions of section 4.1.2 are the machine's. */
  lemma Sums0IsMachine(x: Register)
    ensures BigSigma0(Num(x)) == Num(Sums0(x))
  {
    hide Num, Xor, Rotr, ShiftRight, Parity, Rolled, RightBy, Roll, Right;
    Amounts(x);
    RotationIsMachine(x, 2);
    RotationIsMachine(x, 13);
    RotationIsMachine(x, 22);
    ParityIsMachine(Rolled(x, 2), Rolled(x, 13), Rolled(x, 22));
  }

  lemma Sums1IsMachine(x: Register)
    ensures BigSigma1(Num(x)) == Num(Sums1(x))
  {
    hide Num, Xor, Rotr, ShiftRight, Parity, Rolled, RightBy, Roll, Right;
    Amounts(x);
    RotationIsMachine(x, 6);
    RotationIsMachine(x, 11);
    RotationIsMachine(x, 25);
    ParityIsMachine(Rolled(x, 6), Rolled(x, 11), Rolled(x, 25));
  }

  lemma Mixed0IsMachine(x: Register)
    ensures SmallSigma0(Num(x)) == Num(Mixed0(x))
  {
    hide Num, Xor, Rotr, ShiftRight, Parity, Rolled, RightBy, Roll, Right;
    Amounts(x);
    RotationIsMachine(x, 7);
    RotationIsMachine(x, 18);
    ShiftIsMachine(x, 3);
    ParityIsMachine(Rolled(x, 7), Rolled(x, 18), RightBy(x, 3));
  }

  lemma Mixed1IsMachine(x: Register)
    ensures SmallSigma1(Num(x)) == Num(Mixed1(x))
  {
    hide Num, Xor, Rotr, ShiftRight, Parity, Rolled, RightBy, Roll, Right;
    Amounts(x);
    RotationIsMachine(x, 17);
    RotationIsMachine(x, 19);
    ShiftIsMachine(x, 10);
    ParityIsMachine(Rolled(x, 17), Rolled(x, 19), RightBy(x, 10));
  }

  lemma ChoiceIsMachine(x: Register, y: Register, z: Register)
    ensures Ch(Num(x), Num(y), Num(z)) == Num(Choice(x, y, z))
  {
    hide Num, Xor, And, Not, Both, Differ, Flip, Choice;
    ChoiceDef(x, y, z);
    LogicIsMachine(x, y);
    NotIsMachine(x);
    LogicIsMachine(Flip(x), z);
    LogicIsMachine(Both(x, y), Both(Flip(x), z));
  }

  lemma MajorityIsMachine(x: Register, y: Register, z: Register)
    ensures Maj(Num(x), Num(y), Num(z)) == Num(Majority(x, y, z))
  {
    hide Num, Xor, And, Parity, Both, Differ, Majority;
    MajorityDef(x, y, z);
    LogicIsMachine(x, y);
    LogicIsMachine(x, z);
    LogicIsMachine(y, z);
    ParityIsMachine(Both(x, y), Both(x, z), Both(y, z));
  }

  // ----- One round and one word of the schedule -----

  datatype File = File(a: Register, b: Register, c: Register, d: Register,
                       e: Register, f: Register, g: Register, h: Register)

  function Numbers(r: File): Vars {
    Vars(Num(r.a), Num(r.b), Num(r.c), Num(r.d), Num(r.e), Num(r.f), Num(r.g), Num(r.h))
  }

  function First(e: Register, f: Register, g: Register, h: Register, k: Register, w: Register): Register {
    Plus(Plus(Plus(Plus(h, Sums1(e)), Choice(e, f, g)), k), w)
  }

  function Second(a: Register, b: Register, c: Register): Register {
    Plus(Sums0(a), Majority(a, b, c))
  }

  function Turned(r: File, k: Register, w: Register): File {
    var t := First(r.e, r.f, r.g, r.h, k, w);
    File(Plus(t, Second(r.a, r.b, r.c)), r.a, r.b, r.c, Plus(r.d, t), r.e, r.f, r.g)
  }

  lemma FirstIsMachine(e: Register, f: Register, g: Register, h: Register, k: Register, w: Register)
    ensures Add(Add(Add(Add(Num(h), Sig1(Num(e))), Ch(Num(e), Num(f), Num(g))), Num(k)), Num(w)) ==
            Num(First(e, f, g, h, k, w))
  {
    hide Num, Add, Sig1, Ch, BigSigma1, Plus, Sums1, Choice;
    BitFunctions(Num(e));
    Sums1IsMachine(e);
    ChoiceIsMachine(e, f, g);
    var x := Plus(h, Sums1(e));
    var y := Plus(x, Choice(e, f, g));
    SumIsMachine(h, Sums1(e));
    SumIsMachine(x, Choice(e, f, g));
    SumIsMachine(y, k);
    SumIsMachine(Plus(y, k), w);
  }

  lemma SecondIsMachine(a: Register, b: Register, c: Register)
    ensures Add(Sig0(Num(a)), Maj(Num(a), Num(b), Num(c))) == Num(Second(a, b, c))
  {
    hide Num, Add, Sig0, Maj, BigSigma0, Plus, Sums0, Majority;
    BitFunctions(Num(a));
    Sums0IsMachine(a);
    MajorityIsMachine(a, b, c);
    SumIsMachine(Sums0(a), Majority(a, b, c));
  }

  /** A round of the standard is a turn of the machine. */
  lemma RoundIsMachine(r: File, k: Register, w: Register)
    ensures Round(Numbers(r), Num(k), Num(w)) == Numbers(Turned(r, k, w))
  {
    RoundStep(Numbers(r), Num(k), Num(w));
    hide Num, Add, Round, Sig0, Sig1, Ch, Maj, Plus, First, Second;
    var t := First(r.e, r.f, r.g, r.h, k, w);
    FirstIsMachine(r.e, r.f, r.g, r.h, k, w);
    SecondIsMachine(r.a, r.b, r.c);
    SumIsMachine(t, Second(r.a, r.b, r.c));
    SumIsMachine(r.d, t);
  }

  function Scheduled(w2: Register, w7: Register, w15: Register, w16: Register): Register {
    Plus(Plus(Plus(Mixed1(w2), w7), Mixed0(w15)), w16)
  }

  lemma ScheduleIsMachine(block: seq<Byte>, t: nat, w2: Register, w7: Register, w15: Register, w16: Register)
    requires |block| == 64 && 16 <= t < 64
    requires W(block, t - 2) == Num(w2) && W(block, t - 7) == Num(w7)
    requires W(block, t - 15) == Num(w15) && W(block, t - 16) == Num(w16)
    ensures W(block, t) == Num(Scheduled(w2, w7, w15, w16))
  {
    hide Num, Add, W, Gam0, Gam1, SmallSigma0, SmallSigma1, Plus, Mixed0, Mixed1;
    ScheduleStep(Num(w2), Num(w7), Num(w15), Num(w16), block, t);
    BitFunctions(Num(w2));
    BitFunctions(Num(w15));
    Mixed1IsMachine(w2);
    Mixed0IsMachine(w15);
    var x := Plus(Mixed1(w2), w7);
    SumIsMachine(Mixed1(w2), w7);
    SumIsMachine(x, Mixed0(w15));
    SumIsMachine(Plus(x, Mixed0(w15)), w16);
  }

  // ----- Reading a word off its hex digits -----

  function DigitAt(b: Register, n: bv6): nat
    requires n <= 32
  {
    ((b >> n) & 15) as bv4 as nat
  }

  /** The number that the eight hex digits of a word show. */
  function Shown(b: Register): nat {
    DigitAt(b, 0) + 0x10 * DigitAt(b, 4) + 0x100 * DigitAt(b, 8) + 0x1000 * DigitAt(b, 12)
    + 0x1_0000 * DigitAt(b, 16) + 0x10_0000 * DigitAt(b, 20) + 0x100_0000 * DigitAt(b, 24) + 0x1000_0000 * DigitAt(b, 28)
  }

  lemma DigitBits(v: Register)
    requires v <= 15
    ensures v as bv4 as nat == One(v & 1 != 0) + 2 * One(v & 2 != 0) + 4 * One(v & 4 != 0) + 8 * One(v & 8 != 0)
  {
  }

  lemma RawBits(b: Register, n: bv6)
    requires n <= 28
    ensures (b >> n) & 15 <= 15
    ensures ((b >> n) & 15) & 1 != 0 <==> (b >> n) & 1 == 1
    ensures ((b >> n) & 15) & 2 != 0 <==> (b >> (n + 1)) & 1 == 1
    ensures ((b >> n) & 15) & 4 != 0 <==> (b >> (n + 2)) & 1 == 1
    ensures ((b >> n) & 15) & 8 != 0 <==> (b >> (n + 3)) & 1 == 1
  {
  }

  lemma OddRight(b: Register, n: bv6)
    requires n <= 31
    ensures Odd(Right(b, n)) <==> (b >> n) & 1 == 1
  {
  }

  lemma DigitIs(b: Register, n: bv6)
    requires n <= 28
    ensures DigitAt(b, n) == One(Odd(Right(b, n))) + 2 * One(Odd(Right(b, n + 1)))
                             + 4 * One(Odd(Right(b, n + 2))) + 8 * One(Odd(Right(b, n + 3)))
  {
    hide Odd, Right, One;
    RawBits(b, n);
    DigitBits((b >> n) & 15);
    OddRight(b, n);
    OddRight(b, n + 1);
    OddRight(b, n + 2);
    OddRight(b, n + 3);
  }

  /** Four bits are one digit. */
  lemma FourBits(b: Register, n: bv6, k: nat)
    requires n <= 28 && k >= 4
    ensures Low(Right(b, n), k) == 16 * Low(Right(b, n + 4), k - 4) + DigitAt(b, n)
  {
    hide Half, Odd, Right, DigitAt, One, Low;
    DigitIs(b, n);
    Further(b, n + 1);
    Further(b, n + 2);
    Further(b, n + 3);
    LowDef(Right(b, n), k);
    LowDef(Right(b, n + 1), k - 1);
    LowDef(Right(b, n + 2), k - 2);
    LowDef(Right(b, n + 3), k - 3);
    OneMoreBit(b, n);
  }

  lemma OneMoreBit(b: Register, n: bv6)
    requires n <= 28
    ensures Half(Right(b, n + 3)) == Right(b, n + 4)
  {
  }

  lemma NumIsShown(b: Register)
    ensures Num(b) == Shown(b)
  {
    hide Low, Right, DigitAt;
    NoRight(b);
    FourBits(b, 0, 32);
    FourBits(b, 4, 28);
    FourBits(b, 8, 24);
    FourBits(b, 12, 20);
    FourBits(b, 16, 16);
    FourBits(b, 20, 12);
    FourBits(b, 24, 8);
    FourBits(b, 28, 4);
    NoLow(Right(b, 32));
  }

  lemma NoRight(b: Register)
    ensures Right(b, 0) == b
  {
  }

  lemma NoLow(b: Register)
    ensures Low(b, 0) == 0
  {
  }
}
