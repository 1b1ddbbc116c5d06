/** The field of 256 elements on which the storage node's Reed-Solomon code
    computes: bytes, with addition XOR and multiplication modulo
    x^8 + x^4 + x^3 + x^2 + 1. */
module Galois {

  type Elem = bv8

  function Add(a: Elem, b: Elem): Elem { a ^ b }

  /** What `Shift` adds back when it overflows: x^8 reduced. */
  function Reduce(a: Elem): Elem { if a & 0x80 != 0 then 0x1D else 0 }

  /** Multiplication by x. */
  function Shift(a: Elem): Elem { Add(a << 1, Reduce(a)) }

  function Half(b: Elem): Elem { b >> 1 }

  function LowBit(b: Elem, a: Elem): Elem { if b & 1 != 0 then a else 0 }

  /** The product of `a` with the lowest `n` bits of `b`. */
  function MulBits(a: Elem, b: Elem, n: nat): Elem
    decreases n
  {
    if n == 0 then 0 else Add(LowBit(b, a), MulBits(Shift(a), Half(b), n - 1))
  }

  function Mul(a: Elem, b: Elem): Elem { MulBits(a, b, 8) }

  // ----- Bit facts -----

  lemma AddFacts(a: Elem, b: Elem)
    ensures Add(a, b) == Add(b, a) && Add(a, 0) == a && Add(0, a) == a && Add(a, a) == 0
  {
  }

  lemma AddAssoc(a: Elem, b: Elem, c: Elem)
    ensures Add(Add(a, b), c) == Add(a, Add(b, c))
  {
  }

  lemma AddZeroOnlyOfEqual(a: Elem, b: Elem)
    ensures Add(a, b) == 0 <==> a == b
  {
  }

  lemma AddSwap(a: Elem, b: Elem, c: Elem, d: Elem)
    ensures Add(Add(a, b), Add(c, d)) == Add(Add(a, c), Add(b, d))
  {
    hide Add;
    AddAssoc(a, b, Add(c, d));
    AddAssoc(b, c, d);
    AddFacts(b, c);
    AddAssoc(c, b, d);
    AddAssoc(a, c, Add(b, d));
  }

  lemma DoubleLinear(a: Elem, b: Elem)
    ensures Add(a, b) << 1 == Add(a << 1, b << 1)
  {
  }

  lemma ReduceLinear(a: Elem, b: Elem)
    ensures Reduce(Add(a, b)) == Add(Reduce(a), Reduce(b))
  {
    assert Add(a, b) & 0x80 == Add(a & 0x80, b & 0x80);
  }

  lemma ShiftLinear(a: Elem, b: Elem)
    ensures Shift(Add(a, b)) == Add(Shift(a), Shift(b))
  {
    hide Add, Reduce;
    DoubleLinear(a, b);
    ReduceLinear(a, b);
    AddSwap(a << 1, b << 1, Reduce(a), Reduce(b));
  }

  lemma ShiftZero()
    ensures Shift(0) == 0
  {
  }

  lemma HalfLinear(a: Elem, b: Elem)
    ensures Half(Add(a, b)) == Add(Half(a), Half(b))
  {
  }

  lemma LowBitLinear(a: Elem, b: Elem, c: Elem)
    ensures LowBit(Add(a, b), c) == Add(LowBit(a, c), LowBit(b, c))
  {
  }

  lemma LowBitOfSum(a: Elem, b: Elem, c: Elem)
    ensures LowBit(c, Add(a, b)) == Add(LowBit(c, a), LowBit(c, b))
  {
  }

  lemma LowBitShift(a: Elem, c: Elem)
    ensures Shift(LowBit(c, a)) == LowBit(c, Shift(a))
  {
  }

  // ----- Multiplication -----

  lemma {:induction false} RightLinear(a: Elem, b: Elem, c: Elem, n: nat)
    ensures MulBits(a, Add(b, c), n) == Add(MulBits(a, b, n), MulBits(a, c, n))
    decreases n
  {
    hide Shift, LowBit, Add, Half;
    if n > 0 {
      LowBitLinear(b, c, a);
      HalfLinear(b, c);
      RightLinear(Shift(a), Half(b), Half(c), n - 1);
      AddSwap(LowBit(b, a), LowBit(c, a), MulBits(Shift(a), Half(b), n - 1), MulBits(Shift(a), Half(c), n - 1));
    } else {
      AddFacts(0, 0);
    }
  }

  lemma {:induction false} LeftLinear(a: Elem, b: Elem, c: Elem, n: nat)
    ensures MulBits(Add(a, b), c, n) == Add(MulBits(a, c, n), MulBits(b, c, n))
    decreases n
  {
    hide Shift, LowBit, Add, Half;
    if n > 0 {
      LowBitOfSum(a, b, c);
      ShiftLinear(a, b);
      LeftLinear(Shift(a), Shift(b), Half(c), n - 1);
      AddSwap(LowBit(c, a), LowBit(c, b), MulBits(Shift(a), Half(c), n - 1), MulBits(Shift(b), Half(c), n - 1));
    } else {
      AddFacts(0, 0);
    }
  }

  lemma {:induction false} ShiftLeft(a: Elem, b: Elem, n: nat)
    ensures MulBits(Shift(a), b, n) == Shift(MulBits(a, b, n))
    decreases n
  {
    hide Shift, LowBit, Add, Half;
    if n > 0 {
      ShiftLeft(Shift(a), Half(b), n - 1);
      LowBitShift(a, b);
      ShiftLinear(LowBit(b, a), MulBits(Shift(a), Half(b), n - 1));
    } else {
      ShiftZero();
    }
  }

  /** All eight steps at once. */
  function MulFlat(a: Elem, b: Elem): Elem {
    var a1 := Shift(a); var a2 := Shift(a1); var a3 := Shift(a2); var a4 := Shift(a3);
    var a5 := Shift(a4); var a6 := Shift(a5); var a7 := Shift(a6);
    var b1 := Half(b); var b2 := Half(b1); var b3 := Half(b2); var b4 := Half(b3);
    var b5 := Half(b4); var b6 := Half(b5); var b7 := Half(b6);
    Add(LowBit(b, a), Add(LowBit(b1, a1), Add(LowBit(b2, a2), Add(LowBit(b3, a3),
    Add(LowBit(b4, a4), Add(LowBit(b5, a5), Add(LowBit(b6, a6), Add(LowBit(b7, a7), 0))))))))
  }

  lemma MulIsFlat(a: Elem, b: Elem)
    ensures Mul(a, b) == MulFlat(a, b)
  {
    hide Shift, LowBit, Add, Half;
  }

  lemma OneFlat(a: Elem)
    ensures MulFlat(a, 1) == a && MulFlat(a, 0) == 0 && MulFlat(0, a) == 0
  {
  }

  lemma TopBitFlatLow(a: Elem)
    requires a < 128
    ensures MulFlat(a, 0x1D) == Shift(MulFlat(a, 0x80))
  {
  }

  lemma TopBitFlatHigh(a: Elem)
    requires a >= 128
    ensures MulFlat(a, 0x1D) == Shift(MulFlat(a, 0x80))
  {
  }

  lemma TopBitFlat(a: Elem)
    ensures MulFlat(a, 0x1D) == Shift(MulFlat(a, 0x80))
  {
    hide Shift, MulFlat;
    if a < 128 { TopBitFlatLow(a); } else { TopBitFlatHigh(a); }
  }

  lemma ShiftOfTop()
    ensures Shift(0x80) == 0x1D
  {
  }

  lemma MulOne(a: Elem)
    ensures Mul(a, 1) == a && Mul(a, 0) == 0 && Mul(0, a) == 0
  {
    hide Mul, MulFlat;
    MulIsFlat(a, 1); MulIsFlat(a, 0); MulIsFlat(0, a);
    OneFlat(a);
  }

  function Halved(b: Elem, n: nat): Elem
    decreases n
  {
    if n == 0 then b else Halved(Half(b), n - 1)
  }

  lemma LowBitOfZero(a: Elem)
    ensures LowBit(0, a) == 0 && Half(0) == 0
  {
  }

  lemma {:induction false} TopStepIdle(a: Elem, b: Elem, n: nat)
    requires Halved(b, n) == 0
    ensures MulBits(a, b, n + 1) == MulBits(a, b, n)
    decreases n
  {
    hide Shift, LowBit, Add, Half;
    if n > 0 {
      TopStepIdle(Shift(a), Half(b), n - 1);
    } else {
      LowBitOfZero(a);
      AddFacts(0, 0);
    }
  }

  lemma SmallShift(b: Elem, a: Elem)
    requires b < 128
    ensures LowBit(Shift(b), a) == 0 && Half(Shift(b)) == b
  {
  }

  lemma HalvedSeven(b: Elem)
    ensures b < 128 ==> Halved(b, 7) == 0
    ensures Halved(b, 8) == 0
  {
    var b1 := Half(b); var b2 := Half(b1); var b3 := Half(b2); var b4 := Half(b3);
    var b5 := Half(b4); var b6 := Half(b5); var b7 := Half(b6);
    assert Halved(b, 7) == b7;
    assert Halved(b, 8) == Half(b7);
  }

  lemma SplitTop(b: Elem)
    ensures b == Add(b & 0x7F, b & 0x80) && b & 0x7F < 128 && (b & 0x80 == 0 || b & 0x80 == 0x80)
  {
  }

  lemma MulBitsStep(a: Elem, b: Elem, n: nat)
    requires n > 0
    ensures MulBits(a, b, n) == Add(LowBit(b, a), MulBits(Shift(a), Half(b), n - 1))
  {
  }

  lemma ShiftRightSmall(a: Elem, b: Elem)
    requires b < 128
    ensures Mul(a, Shift(b)) == Shift(Mul(a, b))
  {
    hide Shift, LowBit, Add, Half, Halved;
    SmallShift(b, a);
    HalvedSeven(b);
    TopStepIdle(Shift(a), b, 7);
    ShiftLeft(a, b, 8);
    AddFacts(MulBits(Shift(a), b, 7), 0);
    MulBitsStep(a, Shift(b), 8);
  }

  lemma ShiftRight(a: Elem, b: Elem)
    ensures Mul(a, Shift(b)) == Shift(Mul(a, b))
  {
    hide Shift, Add, MulBits, MulFlat;
    var low, top := b & 0x7F, b & 0x80;
    SplitTop(b);
    ShiftLinear(low, top);
    RightLinear(a, Shift(low), Shift(top), 8);
    RightLinear(a, low, top, 8);
    ShiftRightSmall(a, low);
    ShiftLinear(Mul(a, low), Mul(a, top));
    if top == 0x80 {
      MulIsFlat(a, 0x1D);
      ShiftOfTop();
      MulIsFlat(a, 0x80);
      TopBitFlat(a);
    } else {
      MulOne(a);
      ShiftZero();
    }
  }

  /** Every element is built from zero by shifting and adding one. */
  lemma Build(b: Elem, a: Elem)
    ensures b == Add(Shift(Half(b)), LowBit(b, 1))
    ensures (LowBit(b, 1) == 1 && LowBit(b, a) == a) || (LowBit(b, 1) == 0 && LowBit(b, a) == 0)
  {
  }

  lemma {:induction false} CommutesUpTo(a: Elem, b: Elem, n: nat)
    requires Halved(b, n) == 0
    ensures Mul(a, b) == Mul(b, a)
    decreases n
  {
    hide Shift, LowBit, Add, Half, MulBits, Mul;
    MulOne(a);
    if n > 0 {
      var h, l := Half(b), LowBit(b, 1);
      CommutesUpTo(a, h, n - 1);
      Build(b, a);
      AddOnRight(a, Shift(h), l);
      AddOnLeft(Shift(h), l, a);
      ShiftRight(a, h);
      ShiftOnLeft(h, a);
      OneOnLeft(a);
    }
  }

  lemma AddOnRight(a: Elem, b: Elem, c: Elem)
    ensures Mul(a, Add(b, c)) == Add(Mul(a, b), Mul(a, c))
  {
    hide MulBits, Add;
    RightLinear(a, b, c, 8);
  }

  lemma AddOnLeft(a: Elem, b: Elem, c: Elem)
    ensures Mul(Add(a, b), c) == Add(Mul(a, c), Mul(b, c))
  {
    hide MulBits, Add;
    LeftLinear(a, b, c, 8);
  }

  lemma ShiftOnLeft(a: Elem, b: Elem)
    ensures Mul(Shift(a), b) == Shift(Mul(a, b))
  {
    hide MulBits, Shift;
    ShiftLeft(a, b, 8);
  }

  lemma OneFlatLeft(a: Elem)
    ensures MulFlat(1, a) == a
  {
  }

  lemma OneOnLeft(a: Elem)
    ensures Mul(1, a) == a
  {
    hide Mul, MulFlat;
    MulIsFlat(1, a);
    OneFlatLeft(a);
  }

  lemma MulCommutes(a: Elem, b: Elem)
    ensures Mul(a, b) == Mul(b, a)
  {
    hide Mul, Halved;
    HalvedSeven(b);
    CommutesUpTo(a, b, 8);
  }

  lemma {:induction false} AssociatesUpTo(a: Elem, b: Elem, c: Elem, n: nat)
    requires Halved(c, n) == 0
    ensures Mul(Mul(a, b), c) == Mul(a, Mul(b, c))
    decreases n
  {
    hide Shift, LowBit, Add, Half, MulBits, Mul;
    MulOne(b);
    MulOne(Mul(a, b));
    MulOne(a);
    if n > 0 {
      var h, l := Half(c), LowBit(c, 1);
      AssociatesUpTo(a, b, h, n - 1);
      Build(c, a);
      AddOnRight(Mul(a, b), Shift(h), l);
      AddOnRight(b, Shift(h), l);
      AddOnRight(a, Mul(b, Shift(h)), Mul(b, l));
      ShiftRight(Mul(a, b), h);
      ShiftRight(b, h);
      ShiftRight(a, Mul(b, h));
    }
  }

  lemma MulAssociates(a: Elem, b: Elem, c: Elem)
    ensures Mul(Mul(a, b), c) == Mul(a, Mul(b, c))
  {
    hide Mul, Halved;
    HalvedSeven(c);
    AssociatesUpTo(a, b, c, 8);
  }

  // ----- Inverses -----

  function Square(a: Elem): Elem { Mul(a, a) }

  /** Squaring is linear, so it is fixed by the squares of the powers of x. */
  function SquareBits(a: Elem): Elem {
    LowBit(a, 1) ^ LowBit(a >> 1, 0x04) ^ LowBit(a >> 2, 0x10) ^ LowBit(a >> 3, 0x40)
    ^ LowBit(a >> 4, 0x1D) ^ LowBit(a >> 5, 0x74) ^ LowBit(a >> 6, 0xCD) ^ LowBit(a >> 7, 0x13)
  }

  lemma SquareFlatLow(a: Elem)
    requires a < 128
    ensures MulFlat(a, a) == SquareBits(a)
  {
  }

  lemma SquareFlatHigh(a: Elem)
    requires a >= 128
    ensures MulFlat(a, a) == SquareBits(a)
  {
  }

  lemma SquareFlat(a: Elem)
    ensures MulFlat(a, a) == SquareBits(a)
  {
    hide MulFlat, SquareBits;
    if a < 128 { SquareFlatLow(a); } else { SquareFlatHigh(a); }
  }

  lemma SquareIsBits(a: Elem)
    ensures Square(a) == SquareBits(a)
  {
    hide Mul, MulFlat, SquareBits;
    MulIsFlat(a, a);
    SquareFlat(a);
  }

  lemma SquareBitsEightfold(a: Elem)
    ensures SquareBits(SquareBits(SquareBits(SquareBits(SquareBits(SquareBits(SquareBits(SquareBits(a)))))))) == a
  {
  }

  lemma OnlyZeroAndOneAreIdempotent(a: Elem)
    requires SquareBits(a) == a
    ensures a == 0 || a == 1
  {
  }

  /** `a` to the power 2^n. */
  function Frobenius(a: Elem, n: nat): Elem
    decreases n
  {
    if n == 0 then a else Frobenius(Square(a), n - 1)
  }

  /** The product of the 2^k-th powers of `a`, for k from `i` up to `j`. */
  function Product(a: Elem, i: nat, j: nat): Elem
    requires i <= j
    decreases j - i
  {
    if i == j then 1 else Mul(Frobenius(a, i), Product(a, i + 1, j))
  }

  /** The inverse of a non-zero element: its 254th power. */
  function Inv(a: Elem): Elem { Product(a, 1, 8) }

  lemma {:induction false} FrobeniusOfSquare(a: Elem, n: nat)
    ensures Square(Frobenius(a, n)) == Frobenius(a, n + 1)
    decreases n
  {
    hide Square;
    if n > 0 {
      FrobeniusOfSquare(Square(a), n - 1);
    }
  }

  lemma FrobeniusEight(a: Elem)
    ensures Frobenius(a, 8) == a
  {
    hide Square, SquareBits;
    var b := a;
    var c := Square(b); SquareIsBits(b);
    var d := Square(c); SquareIsBits(c);
    var e := Square(d); SquareIsBits(d);
    var f := Square(e); SquareIsBits(e);
    var g := Square(f); SquareIsBits(f);
    var h := Square(g); SquareIsBits(g);
    var i := Square(h); SquareIsBits(h);
    var j := Square(i); SquareIsBits(i);
    SquareBitsEightfold(a);
    assert Frobenius(a, 8) == j;
  }

  lemma SquareOfProduct(a: Elem, b: Elem)
    ensures Square(Mul(a, b)) == Mul(Square(a), Square(b))
  {
    hide Mul;
    MulAssociates(a, b, Mul(a, b));
    MulAssociates(b, a, b);
    MulCommutes(b, a);
    MulAssociates(a, b, b);
    MulAssociates(a, a, Mul(b, b));
  }

  lemma {:induction false} ProductShifts(a: Elem, i: nat, j: nat)
    requires i <= j
    ensures Square(Product(a, i, j)) == Product(a, i + 1, j + 1)
    decreases j - i
  {
    hide Mul, Frobenius;
    if i == j {
      MulOne(1);
    } else {
      ProductShifts(a, i + 1, j);
      SquareOfProduct(Frobenius(a, i), Product(a, i + 1, j));
      FrobeniusOfSquare(a, i);
    }
  }

  lemma {:induction false} ProductExtends(a: Elem, i: nat, j: nat)
    requires i <= j
    ensures Product(a, i, j + 1) == Mul(Product(a, i, j), Frobenius(a, j))
    decreases j - i
  {
    hide Mul, Frobenius;
    if i == j {
      MulCommutes(1, Frobenius(a, j));
    } else {
      ProductExtends(a, i + 1, j);
      MulAssociates(Frobenius(a, i), Product(a, i + 1, j), Frobenius(a, j));
    }
  }

  lemma {:induction false} ProductTelescopes(a: Elem, i: nat, j: nat)
    requires i <= j
    ensures Mul(Frobenius(a, i), Product(a, i, j)) == Frobenius(a, j)
    decreases j - i
  {
    hide Mul, Frobenius;
    MulOne(Frobenius(a, i));
    if i < j {
      ProductTelescopes(a, i + 1, j);
      MulAssociates(Frobenius(a, i), Frobenius(a, i), Product(a, i + 1, j));
      FrobeniusOfSquare(a, i);
    }
  }

  /** `a` times its 254th power is its own square, and not zero. */
  lemma InverseWorks(a: Elem)
    requires a != 0
    ensures Mul(a, Inv(a)) == 1
  {
    hide Mul, SquareBits, Frobenius, Square;
    var e := Product(a, 0, 8);
    assert Frobenius(a, 0) == a by { FrobeniusZero(a); }
    assert e == Mul(a, Inv(a));
    ProductShifts(a, 0, 8);
    ProductExtends(a, 1, 8);
    FrobeniusEight(a);
    MulCommutes(Inv(a), a);
    SquareIsBits(e);
    OnlyZeroAndOneAreIdempotent(e);
    ProductTelescopes(a, 0, 8);
    MulOne(a);
  }

  lemma FrobeniusZero(a: Elem)
    ensures Frobenius(a, 0) == a
  {
  }

  lemma NoZeroDivisors(a: Elem, b: Elem)
    requires Mul(a, b) == 0 && a != 0
    ensures b == 0
  {
    hide Mul, Inv;
    InverseWorks(a);
    MulAssociates(Inv(a), a, b);
    MulCommutes(a, Inv(a));
    OneOnLeft(b);
    MulOne(Inv(a));
  }

  /** The polynomial of the field: x^8 is x^4 + x^3 + x^2 + 1. */
  lemma ReducesBy11D()
    ensures Mul(0x80, 2) == 0x1D && Mul(2, 2) == 4 && forall a: Elem, b: Elem :: Add(a, b) == a ^ b
  {
    MulIsFlat(0x80, 2);
    MulIsFlat(2, 2);
  }
}
