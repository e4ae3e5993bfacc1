// The frame check of the UART protocol: the program's loops, what they compute, and the powers of x
// over the length of a frame.
module Crc16 {
  import opened Gf2

  type byte = x: int | 0 <= x < 0x100

  // ----- The check value -----------------------------------------------------------------------------------

  // A byte is added to the top of the register, which is then stepped eight times.
  function FeedByte(r: Reg, b: byte): Reg {
    StepN(Add(r, 0x100 * b), 8)
  }

  function CrcFrom(r: Reg, bytes: seq<byte>): Reg
    decreases |bytes|
  {
    if bytes == [] then r else FeedByte(CrcFrom(r, bytes[..|bytes| - 1]), bytes[|bytes| - 1])
  }

  const PRESET: Reg := 0xFFFF

  function Crc(bytes: seq<byte>): Reg { CrcFrom(PRESET, bytes) }

  lemma CrcSnoc(r: Reg, bytes: seq<byte>, b: byte)
    ensures CrcFrom(r, bytes + [b]) == FeedByte(CrcFrom(r, bytes), b)
  {
    assert (bytes + [b])[..|bytes + [b]| - 1] == bytes;
  }

  // ----- The program -----------------------------------------------------------------------------------------

  // One turn of the inner loop on the 32-bit variable: test bit 15, shift, reduce, mask to 16 bits.
  function Turn(w: nat): nat
    requires w < 0x10000
  {
    (if w / 0x8000 % 2 != 0 then Xor(2 * w, 0x1021) else 2 * w) % 0x10000
  }

  lemma Masked(r: Reg, g: Reg)
    requires r >= 0x8000
    ensures Xor(2 * r, g) % 0x10000 == Xor(2 * r - 0x10000, g)
  {
    var u := 2 * r - 0x10000;
    Widths();
    ShlZero(16);
    XorSplit(16, 1, 0, u, g);
    XorReg(u, g);
  }

  lemma TurnOf(r: Reg)
    ensures Turn(r) == if r >= 0x8000 then Xor(2 * r, 0x1021) % 0x10000 else 2 * r
  {
    assert r / 0x8000 == if r >= 0x8000 then 1 else 0;
  }

  lemma TurnIsStep(r: Reg)
    ensures Turn(r) == Step(r)
  {
    TurnOf(r);
    if r >= 0x8000 {
      Masked(r, 0x1021);
      StepFits(r);
    }
  }

  method FeedByteLoop(w: Reg, b: byte) returns (w': Reg)
    ensures w' == FeedByte(w, b)
  {
    w' := Add(w, 0x100 * b);
    for bit := 0 to 8
      invariant w' == StepN(Add(w, 0x100 * b), bit)
    {
      TurnIsStep(w');
      w' := Turn(w');
    }
  }

  method Crc16Ccitt(bytes: seq<byte>) returns (crc: Reg)
    ensures crc == Crc(bytes)
  {
    crc := 0xFFFF;
    for i := 0 to |bytes|
      invariant crc == CrcFrom(PRESET, bytes[..i])
    {
      crc := FeedByteLoop(crc, bytes[i]);
      CrcSnoc(PRESET, bytes[..i], bytes[i]);
      assert bytes[..i + 1] == bytes[..i] + [bytes[i]];
    }
    assert bytes[..|bytes|] == bytes;
  }

  // ----- What it computes ------------------------------------------------------------------------------------

  // The n lowest binary digits of v, most significant first.
  function BitsOf(v: nat, n: nat): Bits {
    if n == 0 then Nil else Snoc(BitsOf(v / 2, n - 1), v % 2 == 1)
  }

  function BytesBits(bytes: seq<byte>): Bits {
    if bytes == [] then Nil else Append(BytesBits(bytes[..|bytes| - 1]), BitsOf(bytes[|bytes| - 1], 8))
  }

  // x^k * (2 * u + b), split into its two parts.
  lemma {:induction false} ShlParts(u: nat, b: bool, k: nat)
    ensures Shl(2 * u + Digit(b), k) == Xor(Shl(u, k + 1), Shl(Digit(b), k))
  {
    ShlPositive(k);
    ShlZero(k);
    XorDoubleAndOne(u);
    XorSplit(k, 2 * u, Digit(b), 0, 0);
    ShlDouble(u, k);
  }

  lemma {:induction false} ShlPositive(k: nat)
    ensures Shl(1, k) > 0
  {
    if k > 0 {
      ShlPositive(k - 1);
    }
  }

  lemma {:induction false} ShlBound(v: nat, n: nat, k: nat)
    requires v < Shl(1, n)
    ensures Shl(v, k) < Shl(1, n + k)
  {
    if k > 0 {
      ShlBound(v, n, k - 1);
    }
  }

  lemma ShlFits(v: nat, n: nat)
    requires n <= 16 && v < Shl(1, n)
    ensures Shl(v, 16 - n) < 0x10000
  {
    ShlBound(v, n, 16 - n);
    Widths();
  }

  lemma {:induction false} ShlSum(a: nat, m: nat, n: nat)
    ensures Shl(Shl(a, m), n) == Shl(a, m + n)
  {
    if n > 0 {
      ShlSum(a, m, n - 1);
    }
  }

  // Up to 16 bits may be added to the top of the register before stepping.
  lemma {:induction false} FeedAhead(r: Reg, v: nat, n: nat)
    requires n <= 16 && v < Shl(1, n)
    ensures Shl(v, 16 - n) < 0x10000
    ensures StepN(Add(r, Shl(v, 16 - n)), n) == FeedAll(r, BitsOf(v, n))
    decreases n
  {
    ShlFits(v, n);
    if n == 0 {
      ShlZero(16);
    } else {
      FeedAhead(r, v / 2, n - 1);
      FeedAheadNext(r, v / 2, v % 2 == 1, n);
    }
  }

  lemma FeedAheadNext(r: Reg, u: nat, b: bool, n: nat)
    requires 0 < n <= 16 && Shl(u, 17 - n) < 0x10000 && Shl(2 * u + Digit(b), 16 - n) < 0x10000
    ensures StepN(Add(r, Shl(2 * u + Digit(b), 16 - n)), n)
            == Feed(StepN(Add(r, Shl(u, 17 - n)), n - 1), b)
  {
    var low := Shl(Digit(b), 16 - n);
    Climb(b, n);
    ShlParts(u, b, 16 - n);
    XorAssociates(r, Shl(u, 17 - n), low);
    StepNLinear(Add(r, Shl(u, 17 - n)), low, n - 1);
  }

  lemma Climb(b: bool, n: nat)
    requires 0 < n <= 16
    ensures Shl(Digit(b), 16 - n) < 0x10000
    ensures StepN(Shl(Digit(b), 16 - n), n - 1) == 0x8000 * Digit(b)
  {
    Widths();
    ShlZero(15);
    ShlZero(16 - n);
    ShlSum(Digit(b), 16 - n, n - 1);
    StepNShort(Shl(Digit(b), 16 - n), n - 1);
  }

  lemma {:induction false} CrcFeedsBits(r: Reg, bytes: seq<byte>)
    ensures CrcFrom(r, bytes) == FeedAll(r, BytesBits(bytes))
    decreases |bytes|
  {
    if bytes != [] {
      var front, b := bytes[..|bytes| - 1], bytes[|bytes| - 1];
      CrcFeedsBits(r, front);
      ByteAhead(CrcFrom(r, front), b);
      FeedAllAppend(r, BytesBits(front), BitsOf(b, 8));
    }
  }

  lemma ShlFour(c: nat)
    ensures Shl(c, 4) == 16 * c
  {
    assert Shl(c, 1) == 2 * c;
    assert Shl(c, 2) == 4 * c;
    assert Shl(c, 3) == 8 * c;
  }

  lemma ByteAhead(r: Reg, b: byte)
    ensures FeedByte(r, b) == FeedAll(r, BitsOf(b, 8))
  {
    assert Shl(1, 8) == 256;
    ShlFour(b);
    ShlFour(Shl(b, 4));
    ShlSum(b, 4, 4);
    FeedAhead(r, b, 8);
  }

  // The check value is the remainder, after division by G, of the message times x^16 with the preset FFFF
  // added to its first 16 bits; no other value is.
  lemma CrcIsRemainder(bytes: seq<byte>) returns (q: nat)
    ensures Division(0xFFFF, BytesBits(bytes), q, Crc(bytes))
    ensures forall p, c: Reg :: Division(0xFFFF, BytesBits(bytes), p, c) ==> c == Crc(bytes) && p == q
  {
    CrcFeedsBits(PRESET, bytes);
    q := FeedDivides(PRESET, BytesBits(bytes));
    forall p, c: Reg | Division(0xFFFF, BytesBits(bytes), p, c)
      ensures c == Crc(bytes) && p == q
    {
      RemainderUnique(p, q, c, Crc(bytes));
    }
  }

  // ----- Powers of x below 80 ---------------------------------------------------------------------------------

  // What flipping the binary digit worth p adds to u.
  function FlipBy(u: nat, p: nat): int
    requires p > 0
  {
    if u / p % 2 == 0 then p else 0 - p
  }

  // Stepping in plain arithmetic: flip the binary digits 12, 5 and 0 of what doubling leaves.
  function QuickStep(r: nat): int {
    if r < 0x8000 then 2 * r
    else var u := 2 * r - 0x10000; u + FlipBy(u, 0x1000) + FlipBy(u, 0x20) + 1
  }

  lemma XorOne(a: nat)
    ensures Xor(a, 1) == if a % 2 == 0 then a + 1 else a - 1
  {
    XorUnfold(a, 1);
  }

  lemma FlipLow(v: nat)
    requires v < 0x1000 && v % 2 == 0
    ensures Xor(v, 0x21) == v + FlipBy(v, 0x20) + 1
  {
    var c, w := v / 32, v % 32;
    SplitAtFive(c, w);
    XorOne(c);
  }

  lemma SplitAtFive(c: nat, w: nat)
    requires w < 32 && w % 2 == 0
    ensures Xor(32 * c + w, 0x21) == 32 * Xor(c, 1) + w + 1
  {
    ShlFive(1);
    ShlFive(c);
    ShlFive(Xor(c, 1));
    XorSplit(5, c, 1, w, 1);
    XorOne(w);
  }

  lemma ShlFive(c: nat)
    ensures Shl(c, 5) == 32 * c
  {
    ShlFour(c);
  }

  lemma ShlTwelve(c: nat)
    ensures Shl(c, 12) == 0x1000 * c
  {
    ShlFour(c);
    ShlFour(Shl(c, 4));
    ShlFour(Shl(c, 8));
    ShlSum(c, 4, 4);
    ShlSum(c, 8, 4);
  }

  lemma FlipApart(a: nat, v: nat)
    requires v < 0x1000
    ensures FlipBy(0x1000 * a + v, 0x1000) == 0x1000 * (Xor(a, 1) - a)
    ensures FlipBy(0x1000 * a + v, 0x20) == FlipBy(v, 0x20)
  {
    XorOne(a);
    FlipsApart(a, v);
  }

  lemma FlipsApart(a: nat, v: nat)
    requires v < 0x1000
    ensures FlipBy(0x1000 * a + v, 0x1000) == if a % 2 == 0 then 0x1000 else -0x1000
    ensures FlipBy(0x1000 * a + v, 0x20) == FlipBy(v, 0x20)
  {
    assert (0x1000 * a + v) / 0x1000 == a;
    assert (0x1000 * a + v) / 0x20 == 0x80 * a + v / 0x20;
  }

  lemma FlipHigh(u: nat)
    requires u % 2 == 0
    ensures Xor(u, 0x1021) == u + FlipBy(u, 0x1000) + FlipBy(u, 0x20) + 1
  {
    var a, v := u / 0x1000, u % 0x1000;
    SplitAtTwelve(a, v);
    FlipLow(v);
    FlipApart(a, v);
  }

  lemma SplitAtTwelve(a: nat, v: nat)
    requires v < 0x1000
    ensures Xor(0x1000 * a + v, 0x1021) == 0x1000 * Xor(a, 1) + Xor(v, 0x21)
  {
    ShlTwelve(1);
    ShlTwelve(a);
    ShlTwelve(Xor(a, 1));
    XorSplit(12, a, 1, v, 0x21);
  }

  lemma QuickIsStep(r: Reg)
    ensures QuickStep(r) == Step(r)
  {
    if r >= 0x8000 {
      StepFits(r);
      FlipHigh(2 * r - 0x10000);
    }
  }

  // None of the next n steps leads to 1.
  predicate AvoidsOne(r: int, n: nat)
    decreases n
  {
    n == 0 || (r >= 0 && QuickStep(r) != 1 && AvoidsOne(QuickStep(r), n - 1))
  }

  lemma Back(r: nat, r': nat, n: nat)
    requires r' == QuickStep(r) && r' != 1 && AvoidsOne(r', n)
    ensures AvoidsOne(r, n + 1)
  {
  }

  // The powers of x from x^79 down to 1, one step at a time. The count of steps is kept symbolic as
  // z + k with z == 0, because a literal count would make the verifier unfold AvoidsOne at every call.

  lemma PeriodFrom60(z: nat)
    requires z == 0
    ensures AvoidsOne(0x1A84, z + 19)
  {
    Back(0xF6D0, 0xFD81, z + 0);
    Back(0x7B68, 0xF6D0, z + 1);
    Back(0x3DB4, 0x7B68, z + 2);
    Back(0x1EDA, 0x3DB4, z + 3);
    Back(0x0F6D, 0x1EDA, z + 4);
    Back(0x8FA6, 0x0F6D, z + 5);
    Back(0x47D3, 0x8FA6, z + 6);
    Back(0xABF9, 0x47D3, z + 7);
    Back(0xDDEC, 0xABF9, z + 8);
    Back(0x6EF6, 0xDDEC, z + 9);
    Back(0x377B, 0x6EF6, z + 10);
    Back(0x93AD, 0x377B, z + 11);
    Back(0xC1C6, 0x93AD, z + 12);
    Back(0x60E3, 0xC1C6, z + 13);
    Back(0xB861, 0x60E3, z + 14);
    Back(0xD420, 0xB861, z + 15);
    Back(0x6A10, 0xD420, z + 16);
    Back(0x3508, 0x6A10, z + 17);
    Back(0x1A84, 0x3508, z + 18);
  }

  lemma PeriodFrom40(z: nat)
    requires z == 0
    ensures AvoidsOne(0x76B4, z + 39)
  {
    PeriodFrom60(z);
    Back(0x0D42, 0x1A84, z + 19);
    Back(0x06A1, 0x0D42, z + 20);
    Back(0x8B40, 0x06A1, z + 21);
    Back(0x45A0, 0x8B40, z + 22);
    Back(0x22D0, 0x45A0, z + 23);
    Back(0x1168, 0x22D0, z + 24);
    Back(0x08B4, 0x1168, z + 25);
    Back(0x045A, 0x08B4, z + 26);
    Back(0x022D, 0x045A, z + 27);
    Back(0x8906, 0x022D, z + 28);
    Back(0x4483, 0x8906, z + 29);
    Back(0xAA51, 0x4483, z + 30);
    Back(0xDD38, 0xAA51, z + 31);
    Back(0x6E9C, 0xDD38, z + 32);
    Back(0x374E, 0x6E9C, z + 33);
    Back(0x1BA7, 0x374E, z + 34);
    Back(0x85C3, 0x1BA7, z + 35);
    Back(0xCAF1, 0x85C3, z + 36);
    Back(0xED68, 0xCAF1, z + 37);
    Back(0x76B4, 0xED68, z + 38);
  }

  lemma PeriodFrom20(z: nat)
    requires z == 0
    ensures AvoidsOne(0x1231, z + 59)
  {
    PeriodFrom40(z);
    Back(0x3B5A, 0x76B4, z + 39);
    Back(0x1DAD, 0x3B5A, z + 40);
    Back(0x86C6, 0x1DAD, z + 41);
    Back(0x4363, 0x86C6, z + 42);
    Back(0xA9A1, 0x4363, z + 43);
    Back(0xDCC0, 0xA9A1, z + 44);
    Back(0x6E60, 0xDCC0, z + 45);
    Back(0x3730, 0x6E60, z + 46);
    Back(0x1B98, 0x3730, z + 47);
    Back(0x0DCC, 0x1B98, z + 48);
    Back(0x06E6, 0x0DCC, z + 49);
    Back(0x0373, 0x06E6, z + 50);
    Back(0x89A9, 0x0373, z + 51);
    Back(0xCCC4, 0x89A9, z + 52);
    Back(0x6662, 0xCCC4, z + 53);
    Back(0x3331, 0x6662, z + 54);
    Back(0x9188, 0x3331, z + 55);
    Back(0x48C4, 0x9188, z + 56);
    Back(0x2462, 0x48C4, z + 57);
    Back(0x1231, 0x2462, z + 58);
  }

  lemma PeriodFrom0(z: nat)
    requires z == 0
    ensures AvoidsOne(0x0001, z + 79)
  {
    PeriodFrom20(z);
    Back(0x8108, 0x1231, z + 59);
    Back(0x4084, 0x8108, z + 60);
    Back(0x2042, 0x4084, z + 61);
    Back(0x1021, 0x2042, z + 62);
    Back(0x8000, 0x1021, z + 63);
    Back(0x4000, 0x8000, z + 64);
    Back(0x2000, 0x4000, z + 65);
    Back(0x1000, 0x2000, z + 66);
    Back(0x0800, 0x1000, z + 67);
    Back(0x0400, 0x0800, z + 68);
    Back(0x0200, 0x0400, z + 69);
    Back(0x0100, 0x0200, z + 70);
    Back(0x0080, 0x0100, z + 71);
    Back(0x0040, 0x0080, z + 72);
    Back(0x0020, 0x0040, z + 73);
    Back(0x0010, 0x0020, z + 74);
    Back(0x0008, 0x0010, z + 75);
    Back(0x0004, 0x0008, z + 76);
    Back(0x0002, 0x0004, z + 77);
    Back(0x0001, 0x0002, z + 78);
  }

  lemma {:induction false} AvoidsOneUpTo(k: nat, n: nat, d: nat)
    requires AvoidsOne(Power(k), n) && 1 <= d <= n
    ensures Power(k + d) != 1
    decreases d
  {
    QuickIsStep(Power(k));
    if d > 1 {
      AvoidsOneUpTo(k + 1, n - 1, d - 1);
    }
  }

  // The period of x modulo G exceeds the 80 bits of a frame that the check protects.
  lemma PowerIsNotOne(d: nat)
    requires 1 <= d <= 79
    ensures Power(d) != 1
  {
    PeriodFrom0(0);
    AvoidsOneUpTo(0, 79, d);
  }
}
