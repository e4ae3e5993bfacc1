// Polynomials over GF(2), written as natural numbers: the binary digits are the coefficients, adding
// is exclusive or and multiplying by x is doubling. Remainders are taken modulo
// G = x^16 + x^12 + x^5 + 1 (ITU-T Recommendation V.41, section 2).
module Gf2 {

  function Digit(b: bool): nat { if b then 1 else 0 }

  function Xor(a: nat, b: nat): nat {
    if a == 0 then b
    else if b == 0 then a
    else 2 * Xor(a / 2, b / 2) + Digit(a % 2 != b % 2)
  }

  // a times x^n.
  function Shl(a: nat, n: nat): nat {
    if n == 0 then a else 2 * Shl(a, n - 1)
  }

  // ----- Exclusive or -----------------------------------------------------------------------------------------

  lemma XorUnfold(a: nat, b: nat)
    ensures Xor(a, b) == 2 * Xor(a / 2, b / 2) + Digit(a % 2 != b % 2)
  {
  }

  lemma XorHalves(a: nat, b: nat)
    ensures Xor(a, b) / 2 == Xor(a / 2, b / 2)
    ensures Xor(a, b) % 2 == Digit(a % 2 != b % 2)
  {
    XorUnfold(a, b);
  }

  lemma {:induction false} XorCommutes(a: nat, b: nat)
    ensures Xor(a, b) == Xor(b, a)
  {
    if a != 0 && b != 0 {
      XorCommutes(a / 2, b / 2);
    }
  }

  lemma {:induction false} XorSelf(a: nat)
    ensures Xor(a, a) == 0
  {
    if a != 0 {
      XorSelf(a / 2);
    }
  }

  lemma {:induction false} XorAssociates(a: nat, b: nat, c: nat)
    ensures Xor(Xor(a, b), c) == Xor(a, Xor(b, c))
  {
    if a != 0 && b != 0 && c != 0 {
      XorAssociates(a / 2, b / 2, c / 2);
      XorHalves(a, b);
      XorHalves(b, c);
      XorUnfold(Xor(a, b), c);
      XorUnfold(a, Xor(b, c));
    }
  }

  lemma XorIsZero(a: nat, b: nat)
    ensures Xor(a, b) == 0 <==> a == b
  {
    XorSelf(a);
    if Xor(a, b) == 0 {
      XorAssociates(a, a, b);
    }
  }

  lemma XorSwap(a: nat, b: nat, c: nat, d: nat)
    ensures Xor(Xor(a, b), Xor(c, d)) == Xor(Xor(a, c), Xor(b, d))
  {
    XorAssociates(a, b, Xor(c, d));
    XorAssociates(b, c, d);
    XorCommutes(b, c);
    XorAssociates(c, b, d);
    XorAssociates(a, c, Xor(b, d));
  }

  lemma XorDouble(a: nat, b: nat)
    ensures Xor(2 * a, 2 * b) == 2 * Xor(a, b)
  {
    XorUnfold(2 * a, 2 * b);
  }

  lemma XorDoubleAndOne(a: nat)
    ensures Xor(2 * a, 1) == 2 * a + 1
  {
    XorUnfold(2 * a, 1);
  }

  lemma HalfOfSum(s: nat, u: nat)
    ensures (2 * s + u) / 2 == s + u / 2 && (2 * s + u) % 2 == u % 2
  {
  }

  lemma {:induction false} XorBound(n: nat, u: nat, v: nat)
    requires u < Shl(1, n) && v < Shl(1, n)
    ensures Xor(u, v) < Shl(1, n)
    decreases n
  {
    if n > 0 {
      XorBound(n - 1, u / 2, v / 2);
      XorUnfold(u, v);
    }
  }

  // x and y, with their low n digits u and v, are combined part by part.
  ghost predicate SplitsAt(n: nat, a: nat, b: nat, u: nat, v: nat) {
    Xor(Shl(a, n) + u, Shl(b, n) + v) == Shl(Xor(a, b), n) + Xor(u, v)
  }

  lemma {:induction false} XorSplit(n: nat, a: nat, b: nat, u: nat, v: nat)
    requires u < Shl(1, n) && v < Shl(1, n)
    ensures SplitsAt(n, a, b, u, v)
    decreases n
  {
    if n > 0 {
      XorSplit(n - 1, a, b, u / 2, v / 2);
      SplitNext(n, a, b, u, v);
    }
  }

  lemma SplitNext(n: nat, a: nat, b: nat, u: nat, v: nat)
    requires n > 0 && SplitsAt(n - 1, a, b, u / 2, v / 2)
    ensures SplitsAt(n, a, b, u, v)
  {
    SplitStep(Shl(a, n - 1), Shl(b, n - 1), u, v, Shl(Xor(a, b), n - 1));
  }

  lemma SplitStep(p: nat, q: nat, u: nat, v: nat, s: nat)
    requires Xor(p + u / 2, q + v / 2) == s + Xor(u / 2, v / 2)
    ensures Xor(2 * p + u, 2 * q + v) == 2 * s + Xor(u, v)
  {
    HalfOfSum(p, u);
    HalfOfSum(q, v);
    XorUnfold(2 * p + u, 2 * q + v);
    XorUnfold(u, v);
  }

  lemma {:induction false} ShlZero(n: nat)
    ensures Shl(0, n) == 0
  {
    if n > 0 {
      ShlZero(n - 1);
    }
  }

  // ----- Remainders -----------------------------------------------------------------------------------------

  const G: nat := 0x11021

  type Reg = r: nat | r < 0x10000

  lemma Widths()
    ensures Shl(1, 15) == 0x8000 && Shl(1, 16) == 0x10000 && Shl(1, 17) == 0x20000
  {
    assert Shl(1, 4) == 16;
    assert Shl(1, 8) == 256;
    assert Shl(1, 12) == 4096;
  }

  lemma XorReg(a: Reg, b: Reg)
    ensures Xor(a, b) < 0x10000
  {
    Widths();
    XorBound(16, a, b);
  }

  function Add(a: Reg, b: Reg): Reg {
    XorReg(a, b);
    Xor(a, b)
  }

  // Multiplication by x modulo G: double, and subtract G when x^16 appears.
  function Step(r: Reg): Reg {
    StepFits(r);
    if r < 0x8000 then 2 * r else Xor(2 * r, G)
  }

  lemma StepFits(r: Reg)
    ensures r >= 0x8000 ==> Xor(2 * r, G) < 0x10000
    ensures r >= 0x8000 ==> Xor(2 * r, G) == Xor(2 * r - 0x10000, 0x1021)
  {
    if r >= 0x8000 {
      Widths();
      XorSplit(16, 1, 1, 2 * r - 0x10000, 0x1021);
      XorSelf(1);
      ShlZero(16);
      XorReg(2 * r - 0x10000, 0x1021);
    }
  }

  // ----- Linear and injective --------------------------------------------------------------------------------

  lemma TopOfSum(a: Reg, b: Reg)
    ensures Xor(a, b) >= 0x8000 <==> (a >= 0x8000) != (b >= 0x8000)
  {
    Widths();
    var x, y := Digit(a >= 0x8000), Digit(b >= 0x8000);
    var u, v := a - 0x8000 * x, b - 0x8000 * y;
    ShlZero(15);
    XorSplit(15, x, y, u, v);
    XorBound(15, u, v);
    XorSelf(1);
  }

  lemma StepLinear(a: Reg, b: Reg)
    ensures Step(Add(a, b)) == Add(Step(a), Step(b))
  {
    TopOfSum(a, b);
    XorDouble(a, b);
    if a >= 0x8000 && b >= 0x8000 {
      XorSwap(2 * a, G, 2 * b, G);
      XorSelf(G);
    } else if a >= 0x8000 {
      XorSwap(2 * a, G, 2 * b, 0);
    } else if b >= 0x8000 {
      XorSwap(2 * a, 0, 2 * b, G);
    }
  }

  lemma StepKernel(r: Reg)
    ensures Step(r) == 0 <==> r == 0
  {
    if r >= 0x8000 {
      XorIsZero(2 * r, G);
    }
  }

  function StepN(r: Reg, n: nat): Reg {
    if n == 0 then r else Step(StepN(r, n - 1))
  }

  lemma {:induction false} StepNLinear(a: Reg, b: Reg, n: nat)
    ensures StepN(Add(a, b), n) == Add(StepN(a, n), StepN(b, n))
  {
    if n > 0 {
      StepNLinear(a, b, n - 1);
      StepLinear(StepN(a, n - 1), StepN(b, n - 1));
    }
  }

  // Multiplication by a power of x loses nothing.
  lemma {:induction false} StepNKernel(r: Reg, n: nat)
    ensures StepN(r, n) == 0 <==> r == 0
  {
    if n > 0 {
      StepNKernel(r, n - 1);
      StepKernel(StepN(r, n - 1));
    }
  }

  lemma {:induction false} StepFirst(r: Reg, n: nat)
    ensures StepN(Step(r), n) == StepN(r, n + 1)
  {
    if n > 0 {
      StepFirst(r, n - 1);
    }
  }

  lemma {:induction false} StepNSum(r: Reg, m: nat, n: nat)
    ensures StepN(StepN(r, m), n) == StepN(r, m + n)
  {
    if n > 0 {
      StepNSum(r, m, n - 1);
    }
  }

  // Short of x^16 nothing is subtracted.
  lemma {:induction false} StepNShort(a: nat, n: nat)
    requires Shl(a, n) < 0x10000
    ensures a < 0x10000 && StepN(a, n) == Shl(a, n)
  {
    if n > 0 {
      StepNShort(a, n - 1);
    }
  }

  // ----- Strings of bits -------------------------------------------------------------------------------------

  // Bits in the order they are sent.
  datatype Bits = Nil | Snoc(init: Bits, last: bool)

  function Len(w: Bits): nat {
    match w case Nil => 0 case Snoc(i, _) => Len(i) + 1
  }

  // The string as a polynomial: the last bit is the constant coefficient.
  function Value(w: Bits): nat {
    match w case Nil => 0 case Snoc(i, b) => 2 * Value(i) + Digit(b)
  }

  function Append(a: Bits, b: Bits): Bits {
    match b case Nil => a case Snoc(i, x) => Snoc(Append(a, i), x)
  }

  function Zeros(n: nat): Bits {
    if n == 0 then Nil else Snoc(Zeros(n - 1), false)
  }

  // Two strings of one length, added bit by bit.
  function Flip(a: Bits, b: Bits): Bits {
    match (a, b)
    case (Snoc(i, x), Snoc(j, y)) => Snoc(Flip(i, j), x != y)
    case _ => Nil
  }

  // The register fed one bit.
  function Feed(r: Reg, b: bool): Reg { Step(Add(r, 0x8000 * Digit(b))) }

  function FeedAll(r: Reg, w: Bits): Reg {
    match w case Nil => r case Snoc(i, b) => Feed(FeedAll(r, i), b)
  }

  // The remainder of the string modulo G, by Horner's rule.
  function Mod(w: Bits): Reg {
    match w case Nil => 0 case Snoc(i, b) => Add(Step(Mod(i)), Digit(b))
  }

  lemma XorDigits(x: bool, y: bool)
    ensures Xor(Digit(x), Digit(y)) == Digit(x != y)
    ensures Xor(0x8000 * Digit(x), 0x8000 * Digit(y)) == 0x8000 * Digit(x != y)
  {
    XorSelf(1);
    XorSelf(0x8000);
  }

  lemma FeedLinear(r: Reg, s: Reg, x: bool, y: bool)
    ensures Feed(Add(r, s), x != y) == Add(Feed(r, x), Feed(s, y))
  {
    XorDigits(x, y);
    var p, q := 0x8000 * Digit(x), 0x8000 * Digit(y);
    XorSwap(r, s, p, q);
    StepLinear(Add(r, p), Add(s, q));
  }

  lemma {:induction false} FeedAllLinear(r: Reg, s: Reg, a: Bits, b: Bits)
    requires Len(a) == Len(b)
    ensures FeedAll(Add(r, s), Flip(a, b)) == Add(FeedAll(r, a), FeedAll(s, b))
  {
    match (a, b) {
      case (Snoc(i, x), Snoc(j, y)) =>
        FeedAllLinear(r, s, i, j);
        FeedLinear(FeedAll(r, i), FeedAll(s, j), x, y);
      case _ =>
    }
  }

  lemma {:induction false} FeedAllAppend(r: Reg, a: Bits, b: Bits)
    ensures FeedAll(r, Append(a, b)) == FeedAll(FeedAll(r, a), b)
  {
    match b {
      case Nil =>
      case Snoc(i, _) => FeedAllAppend(r, a, i);
    }
  }

  // ----- Feeding is taking remainders --------------------------------------------------------------------------

  lemma DigitClimbs(b: bool)
    ensures StepN(Digit(b), 15) == 0x8000 * Digit(b)
    ensures StepN(Digit(b), 16) == Step(0x8000 * Digit(b))
  {
    Widths();
    ShlZero(15);
    StepNShort(Digit(b), 15);
  }

  // Feeding b after x^16 * m gives x^16 times (x * m + b).
  lemma FeedAfterClimb(m: Reg, b: bool)
    ensures Feed(StepN(m, 16), b) == StepN(Add(Step(m), Digit(b)), 16)
  {
    StepNLinear(Step(m), Digit(b), 16);
    StepFirst(m, 16);
    DigitClimbs(b);
    StepLinear(StepN(m, 16), 0x8000 * Digit(b));
    assert StepN(m, 17) == Step(StepN(m, 16));
  }

  // Feeding w to a cleared register computes x^16 * w modulo G.
  lemma {:induction false} FeedIsMod(w: Bits)
    ensures FeedAll(0, w) == StepN(Mod(w), 16)
  {
    match w {
      case Nil => StepNKernel(0, 16);
      case Snoc(i, b) =>
        FeedIsMod(i);
        FeedAfterClimb(Mod(i), b);
    }
  }

  // An error pattern leaves the register clear exactly when it is a multiple of G.
  lemma ErrorVanishesIffMultiple(e: Bits)
    ensures FeedAll(0, e) == 0 <==> Mod(e) == 0
  {
    FeedIsMod(e);
    StepNKernel(Mod(e), 16);
  }

  lemma {:induction false} ModLeadingZeros(n: nat, w: Bits)
    ensures Mod(Append(Zeros(n), w)) == Mod(w)
    decreases w, n
  {
    match w {
      case Nil =>
        if n > 0 {
          ModLeadingZeros(n - 1, Nil);
        }
      case Snoc(i, _) => ModLeadingZeros(n, i);
    }
  }

  lemma {:induction false} ModTrailingZeros(w: Bits, n: nat)
    ensures Mod(Append(w, Zeros(n))) == StepN(Mod(w), n)
  {
    if n > 0 {
      ModTrailingZeros(w, n - 1);
      assert Append(w, Zeros(n)) == Snoc(Append(w, Zeros(n - 1)), false);
    }
  }

  // ----- Bursts ---------------------------------------------------------------------------------------------------

  lemma {:induction false} ValueBound(w: Bits)
    ensures Value(w) < Shl(1, Len(w))
  {
    match w {
      case Nil =>
      case Snoc(i, _) => ValueBound(i);
    }
  }

  lemma {:induction false} ShlGrows(m: nat, n: nat)
    requires m <= n
    ensures Shl(1, m) <= Shl(1, n)
  {
    if m < n {
      ShlGrows(m, n - 1);
    }
  }

  // Up to 16 bits are their own remainder.
  lemma {:induction false} ModShort(w: Bits)
    requires Len(w) <= 16
    ensures Mod(w) == Value(w)
  {
    match w {
      case Nil =>
      case Snoc(i, b) =>
        ModShort(i);
        ValueBound(i);
        ShlGrows(Len(i), 15);
        Widths();
        XorDoubleAndOne(Value(i));
    }
  }

  predicate AnySet(w: Bits) {
    match w case Nil => false case Snoc(i, b) => b || AnySet(i)
  }

  lemma {:induction false} ValueOfAnySet(w: Bits)
    ensures AnySet(w) <==> Value(w) > 0
  {
    match w {
      case Nil =>
      case Snoc(i, _) => ValueOfAnySet(i);
    }
  }

  // Non-zero and confined to 16 consecutive bits.
  lemma BurstIsNoMultiple(a: nat, w: Bits, b: nat)
    requires Len(w) <= 16 && AnySet(w)
    ensures Mod(Append(Append(Zeros(a), w), Zeros(b))) != 0
  {
    ModTrailingZeros(Append(Zeros(a), w), b);
    ModLeadingZeros(a, w);
    ModShort(w);
    ValueOfAnySet(w);
    StepNKernel(Mod(w), b);
  }

  // ----- Parity ---------------------------------------------------------------------------------------------------

  function Ones(w: Bits): nat {
    match w case Nil => 0 case Snoc(i, b) => Ones(i) + Digit(b)
  }

  // An odd number of coefficients is set.
  predicate Odd(v: nat) {
    v > 0 && (v % 2 == 1) != Odd(v / 2)
  }

  lemma {:induction false} OddXor(a: nat, b: nat)
    ensures Odd(Xor(a, b)) == (Odd(a) != Odd(b))
  {
    if a > 0 && b > 0 {
      OddXor(a / 2, b / 2);
      XorHalves(a, b);
    }
  }

  lemma EvenG()
    ensures !Odd(G)
  {
    assert !Odd(0x110);
    assert Odd(0x1102);
  }

  lemma OddDouble(v: nat)
    ensures Odd(2 * v) == Odd(v)
  {
  }

  // x + 1 divides G, so stepping keeps the parity.
  lemma StepParity(r: Reg)
    ensures Odd(Step(r)) == Odd(r)
  {
    OddDouble(r);
    if r >= 0x8000 {
      EvenG();
      OddXor(2 * r, G);
    }
  }

  lemma {:induction false} ModParity(w: Bits)
    ensures Odd(Mod(w)) == (Ones(w) % 2 == 1)
  {
    match w {
      case Nil =>
      case Snoc(i, b) =>
        ModParity(i);
        StepParity(Mod(i));
        OddXor(Step(Mod(i)), Digit(b));
        assert Odd(Digit(b)) == b;
    }
  }

  lemma OddIsNoMultiple(e: Bits)
    requires Ones(e) % 2 == 1
    ensures Mod(e) != 0
  {
    ModParity(e);
  }

  // ----- One and two bits -----------------------------------------------------------------------------------------

  // x^k modulo G.
  function Power(k: nat): Reg { StepN(1, k) }

  lemma {:induction false} NoBits(e: Bits)
    requires Ones(e) == 0
    ensures Mod(e) == 0
  {
    match e {
      case Nil =>
      case Snoc(i, _) => NoBits(i);
    }
  }

  lemma {:induction false} OneBit(e: Bits) returns (k: nat)
    requires Ones(e) == 1
    ensures k < Len(e) && Mod(e) == Power(k)
  {
    match e {
      case Snoc(i, b) =>
        if b {
          NoBits(i);
          k := 0;
        } else {
          var j := OneBit(i);
          XorCommutes(Step(Mod(i)), 0);
          k := j + 1;
        }
    }
  }

  // A pattern with two bits is the sum of two different powers of x.
  lemma {:induction false} TwoBits(e: Bits) returns (j: nat, k: nat)
    requires Ones(e) == 2
    ensures j < k < Len(e) && Mod(e) == Add(Power(k), Power(j))
  {
    match e {
      case Snoc(i, b) =>
        if b {
          var h := OneBit(i);
          j, k := 0, h + 1;
        } else {
          var g, h := TwoBits(i);
          j, k := g + 1, h + 1;
          StepLinear(Power(h), Power(g));
          XorCommutes(Step(Mod(i)), 0);
        }
    }
  }

  // Two powers of x agree modulo G only if x^d is 1 for their distance d.
  lemma PowersDiffer(j: nat, k: nat)
    requires j < k && Power(k - j) != 1
    ensures Add(Power(k), Power(j)) != 0
  {
    var d := k - j;
    StepNSum(1, d, j);
    StepNLinear(Power(d), 1, j);
    XorIsZero(Power(d), 1);
    StepNKernel(Add(Power(d), 1), j);
  }

  // ----- Long division ---------------------------------------------------------------------------------------------

  // q * G.
  function Times(q: nat): nat {
    if q == 0 then 0 else Xor(2 * Times(q / 2), G * (q % 2))
  }

  lemma TimesNext(q: nat, b: bool)
    ensures Times(2 * q + Digit(b)) == Xor(2 * Times(q), G * Digit(b))
  {
  }

  // Doubling is stepping, up to one multiple of G.
  lemma StepDivides(y: Reg)
    ensures 2 * y == Xor(G * Digit(y >= 0x8000), Step(y))
  {
    if y >= 0x8000 {
      XorAssociates(G, G, 2 * y);
      XorSelf(G);
      XorCommutes(G, 2 * y);
    }
  }

  lemma DoubleTop(x: Reg, b: bool)
    ensures Xor(2 * x, 0x10000 * Digit(b)) == 2 * Add(x, 0x8000 * Digit(b))
  {
    XorDouble(x, 0x8000 * Digit(b));
  }

  // x^16 * (x * v + b) is x times x^16 * v, plus b * x^16.
  lemma ShiftedString(v: nat, b: bool)
    ensures Shl(2 * v + Digit(b), 16) == Xor(2 * Shl(v, 16), 0x10000 * Digit(b))
  {
    Widths();
    ShlZero(16);
    XorSplit(16, 2 * v, Digit(b), 0, 0);
    XorDoubleAndOne(v);
    ShlDouble(v, 16);
  }

  lemma {:induction false} ShlDouble(a: nat, n: nat)
    ensures Shl(2 * a, n) == 2 * Shl(a, n)
  {
    if n > 0 {
      ShlDouble(a, n - 1);
    }
  }

  // One bit of the division: t is the quotient so far times G, x the remainder so far.
  lemma DivideBit(v: nat, k: nat, t: nat, x: Reg, b: bool)
    requires Xor(v, k) == Xor(t, x)
    ensures var y := Add(x, 0x8000 * Digit(b));
            Xor(Xor(2 * v, 0x10000 * Digit(b)), 2 * k) == Xor(Xor(2 * t, G * Digit(y >= 0x8000)), Feed(x, b))
  {
    var c, y := 0x10000 * Digit(b), Add(x, 0x8000 * Digit(b));
    XorSwap(2 * v, c, 2 * k, 0);
    XorCommutes(Xor(c, 0), 0);
    XorDouble(v, k);
    XorDouble(t, x);
    XorAssociates(2 * t, 2 * x, c);
    DoubleTop(x, b);
    StepDivides(y);
    XorAssociates(2 * t, G * Digit(y >= 0x8000), Step(y));
  }

  // x^16 times the string, with r added to its first 16 bits, is q * G plus c.
  predicate Division(r: Reg, w: Bits, q: nat, c: Reg) {
    Xor(Shl(Value(w), 16), Shl(r, Len(w))) == Xor(Times(q), c)
  }

  lemma DivisionNext(r: Reg, w: Bits, q: nat, x: Reg, b: bool, top: bool)
    requires Division(r, w, q, x)
    requires top == (Add(x, 0x8000 * Digit(b)) >= 0x8000)
    ensures Division(r, Snoc(w, b), 2 * q + Digit(top), Feed(x, b))
  {
    ShiftedString(Value(w), b);
    DivideBit(Shl(Value(w), 16), Shl(r, Len(w)), Times(q), x, b);
    TimesNext(q, top);
  }

  // Feeding w to a register preset to r is long division by G; the register ends as the remainder.
  lemma {:induction false} FeedDivides(r: Reg, w: Bits) returns (q: nat)
    ensures Division(r, w, q, FeedAll(r, w))
  {
    match w {
      case Nil =>
        q := 0;
        ShlZero(16);
      case Snoc(i, b) =>
        var p := FeedDivides(r, i);
        var top := Add(FeedAll(r, i), 0x8000 * Digit(b)) >= 0x8000;
        q := 2 * p + Digit(top);
        DivisionNext(r, i, p, FeedAll(r, i), b, top);
    }
  }

  lemma {:induction false} XorKeepsHigh(n: nat, a: nat, b: nat)
    requires a >= Shl(1, n) && b < Shl(1, n)
    ensures Xor(a, b) >= Shl(1, n)
    decreases n
  {
    if n > 0 {
      XorKeepsHigh(n - 1, a / 2, b / 2);
      XorUnfold(a, b);
    }
  }

  lemma {:induction false} TimesIsBig(q: nat)
    requires q > 0
    ensures Times(q) >= 0x10000
  {
    if q > 1 {
      TimesIsBig(q / 2);
      Widths();
      XorKeepsHigh(17, 2 * Times(q / 2), G * (q % 2));
    }
  }

  ghost predicate TimesAdds(p: nat, q: nat) {
    Times(Xor(p, q)) == Xor(Times(p), Times(q))
  }

  lemma {:induction false} TimesLinear(p: nat, q: nat)
    ensures TimesAdds(p, q)
    decreases p
  {
    if p > 0 && q > 0 {
      TimesLinear(p / 2, q / 2);
      TimesLinearNext(p / 2, q / 2, p % 2 == 1, q % 2 == 1);
    }
  }

  lemma TimesLinearNext(u: nat, v: nat, x: bool, y: bool)
    requires TimesAdds(u, v)
    ensures TimesAdds(2 * u + Digit(x), 2 * v + Digit(y))
  {
    calc {
      Times(Xor(2 * u + Digit(x), 2 * v + Digit(y)));
    ==  { XorLowDigits(u, v, x, y); }
      Times(2 * Xor(u, v) + Digit(x != y));
    ==  { TimesNext(Xor(u, v), x != y); }
      Xor(2 * Times(Xor(u, v)), G * Digit(x != y));
    ==
      Xor(2 * Xor(Times(u), Times(v)), G * Digit(x != y));
    ==  { SumOfMultiples(Times(u), Times(v), x, y); }
      Xor(Xor(2 * Times(u), G * Digit(x)), Xor(2 * Times(v), G * Digit(y)));
    ==  { TimesNext(u, x); TimesNext(v, y); }
      Xor(Times(2 * u + Digit(x)), Times(2 * v + Digit(y)));
    }
  }

  lemma XorLowDigits(u: nat, v: nat, x: bool, y: bool)
    ensures Xor(2 * u + Digit(x), 2 * v + Digit(y)) == 2 * Xor(u, v) + Digit(x != y)
  {
    XorUnfold(2 * u + Digit(x), 2 * v + Digit(y));
  }

  lemma SumOfMultiples(s: nat, t: nat, x: bool, y: bool)
    ensures Xor(2 * Xor(s, t), G * Digit(x != y)) == Xor(Xor(2 * s, G * Digit(x)), Xor(2 * t, G * Digit(y)))
  {
    XorDouble(s, t);
    XorSwap(2 * s, G * Digit(x), 2 * t, G * Digit(y));
    XorSelf(G);
  }

  // The remainder is the only one.
  lemma RemainderUnique(p: nat, q: nat, c: Reg, d: Reg)
    requires Xor(Times(p), c) == Xor(Times(q), d)
    ensures c == d && p == q
  {
    XorSwap(Times(p), c, Times(q), d);
    XorSelf(Xor(Times(p), c));
    TimesLinear(p, q);
    XorIsZero(Times(Xor(p, q)), Xor(c, d));
    XorReg(c, d);
    XorIsZero(p, q);
    if Xor(p, q) > 0 {
      TimesIsBig(Xor(p, q));
    }
    XorIsZero(c, d);
  }
}
