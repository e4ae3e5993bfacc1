// Known answers: one frame byte for byte, and the wire format in numbers.
module UartKnownAnswer {
  import opened Gf2
  import opened Crc16
  import opened UartProtocol

  // ----- The check value in plain arithmetic -------------------------------------------------------------------

  // Feeding one bit: flip the top digit for a one, then step.
  function QuickFeed(r: int, b: bool): int {
    if r < 0 then 0
    else QuickStep(if !b then r else if r < 0x8000 then r + 0x8000 else r - 0x8000)
  }

  lemma FlipTop(r: Reg)
    ensures Xor(r, 0x8000) == if r < 0x8000 then r + 0x8000 else r - 0x8000
  {
    var x := if r < 0x8000 then 0 else 1;
    Widths();
    XorSplit(15, x, 1, r - 0x8000 * x, 0);
    ShlZero(15);
    XorUnfold(x, 1);
  }

  lemma QuickIsFeed(r: Reg, b: bool)
    ensures QuickFeed(r, b) == Feed(r, b)
  {
    if b {
      FlipTop(r);
      QuickIsStep(Add(r, 0x8000));
    } else {
      XorUnfold(r, 0);
      QuickIsStep(r);
    }
  }

  // Four bits, most significant first: the register after them, and the string they extend.
  function QuickFour(r: int, a: bool, b: bool, c: bool, d: bool): int {
    QuickFeed(QuickFeed(QuickFeed(QuickFeed(r, a), b), c), d)
  }

  function Four(w: Bits, a: bool, b: bool, c: bool, d: bool): Bits {
    Snoc(Snoc(Snoc(Snoc(w, a), b), c), d)
  }

  function FourDigits(a: bool, b: bool, c: bool, d: bool): nat {
    8 * Digit(a) + 4 * Digit(b) + 2 * Digit(c) + Digit(d)
  }

  lemma FedBit(w: Bits, b: bool)
    ensures FeedAll(0xFFFF, Snoc(w, b)) == QuickFeed(FeedAll(0xFFFF, w), b)
  {
    QuickIsFeed(FeedAll(0xFFFF, w), b);
  }

  lemma FedFour(w: Bits, a: bool, b: bool, c: bool, d: bool)
    ensures FeedAll(0xFFFF, Four(w, a, b, c, d)) == QuickFour(FeedAll(0xFFFF, w), a, b, c, d)
  {
    FedBit(w, a);
    FedBit(Snoc(w, a), b);
    FedBit(Snoc(Snoc(w, a), b), c);
    FedBit(Snoc(Snoc(Snoc(w, a), b), c), d);
  }

  lemma NextBit(w: Bits, v: nat, n: nat, b: bool)
    ensures Append(w, BitsOf(2 * v + Digit(b), n + 1)) == Snoc(Append(w, BitsOf(v, n)), b)
  {
  }

  lemma NextFour(w: Bits, v: nat, n: nat, a: bool, b: bool, c: bool, d: bool)
    ensures Append(w, BitsOf(16 * v + FourDigits(a, b, c, d), n + 4)) == Four(Append(w, BitsOf(v, n)), a, b, c, d)
  {
    var v1 := 2 * v + Digit(a);
    var v2 := 2 * v1 + Digit(b);
    var v3 := 2 * v2 + Digit(c);
    NextBit(w, v, n, a);
    NextBit(w, v1, n + 1, b);
    NextBit(w, v2, n + 2, c);
    NextBit(w, v3, n + 3, d);
  }

  lemma EightBits(z: nat, w: Bits, v: nat, b7: bool, b6: bool, b5: bool, b4: bool, b3: bool, b2: bool, b1: bool, b0: bool)
    requires z == 0 && v == 16 * FourDigits(b7, b6, b5, b4) + FourDigits(b3, b2, b1, b0)
    ensures Append(w, BitsOf(v, z + 8)) == Four(Four(w, b7, b6, b5, b4), b3, b2, b1, b0)
  {
    NextFour(w, z, z, b7, b6, b5, b4);
    NextFour(w, FourDigits(b7, b6, b5, b4), z + 4, b3, b2, b1, b0);
  }

  // A byte of the message, by its bits.
  lemma FedByte(p: seq<byte>, i: nat, b7: bool, b6: bool, b5: bool, b4: bool, b3: bool, b2: bool, b1: bool, b0: bool)
    requires i < |p| && p[i] == 16 * FourDigits(b7, b6, b5, b4) + FourDigits(b3, b2, b1, b0)
    ensures CrcFrom(0xFFFF, p[..i + 1])
            == QuickFour(QuickFour(CrcFrom(0xFFFF, p[..i]), b7, b6, b5, b4), b3, b2, b1, b0)
  {
    CrcFeedsBits(0xFFFF, p[..i]);
    CrcFeedsBits(0xFFFF, p[..i + 1]);
    BitsGrow(p, i, b7, b6, b5, b4, b3, b2, b1, b0);
    FedEight(BytesBits(p[..i]), b7, b6, b5, b4, b3, b2, b1, b0);
  }

  lemma BitsGrow(p: seq<byte>, i: nat, b7: bool, b6: bool, b5: bool, b4: bool, b3: bool, b2: bool, b1: bool, b0: bool)
    requires i < |p| && p[i] == 16 * FourDigits(b7, b6, b5, b4) + FourDigits(b3, b2, b1, b0)
    ensures BytesBits(p[..i + 1]) == Four(Four(BytesBits(p[..i]), b7, b6, b5, b4), b3, b2, b1, b0)
  {
    assert p[..i + 1][..i] == p[..i];
    EightBits(0, BytesBits(p[..i]), p[i], b7, b6, b5, b4, b3, b2, b1, b0);
  }

  lemma FedEight(w: Bits, b7: bool, b6: bool, b5: bool, b4: bool, b3: bool, b2: bool, b1: bool, b0: bool)
    ensures FeedAll(0xFFFF, Four(Four(w, b7, b6, b5, b4), b3, b2, b1, b0))
            == QuickFour(QuickFour(FeedAll(0xFFFF, w), b7, b6, b5, b4), b3, b2, b1, b0)
  {
    FedFour(w, b7, b6, b5, b4);
    FedFour(Four(w, b7, b6, b5, b4), b3, b2, b1, b0);
  }

  // The register after each bit of the ten bytes.

  lemma Register0()
    ensures QuickFour(QuickFour(0xFFFF, true, false, true, false), true, false, true, false) == 0xF550
  {
    assert QuickFeed(0xFFFF, true) == 0xFFFE;
    assert QuickFeed(0xFFFE, false) == 0xEFDD;
    assert QuickFeed(0xEFDD, true) == 0xDFBA;
    assert QuickFeed(0xDFBA, false) == 0xAF55;
    assert QuickFeed(0xAF55, true) == 0x5EAA;
    assert QuickFeed(0x5EAA, false) == 0xBD54;
    assert QuickFeed(0xBD54, true) == 0x7AA8;
    assert QuickFeed(0x7AA8, false) == 0xF550;
  }

  lemma Byte0(p: seq<byte>)
    requires |p| == 10 && p[0] == 0xAA && CrcFrom(0xFFFF, p[..0]) == 0xFFFF
    ensures CrcFrom(0xFFFF, p[..1]) == 0xF550
  {
    FedByte(p, 0, true, false, true, false, true, false, true, false);
    Register0();
  }

  lemma Register1()
    ensures QuickFour(QuickFour(0xF550, false, true, false, true), false, true, false, true) == 0xE5EA
  {
    assert QuickFeed(0xF550, false) == 0xFA81;
    assert QuickFeed(0xFA81, true) == 0xF502;
    assert QuickFeed(0xF502, false) == 0xFA25;
    assert QuickFeed(0xFA25, true) == 0xF44A;
    assert QuickFeed(0xF44A, false) == 0xF8B5;
    assert QuickFeed(0xF8B5, true) == 0xF16A;
    assert QuickFeed(0xF16A, false) == 0xF2F5;
    assert QuickFeed(0xF2F5, true) == 0xE5EA;
  }

  lemma Byte1(p: seq<byte>)
    requires |p| == 10 && p[1] == 0x55 && CrcFrom(0xFFFF, p[..1]) == 0xF550
    ensures CrcFrom(0xFFFF, p[..2]) == 0xE5EA
  {
    FedByte(p, 1, false, true, false, true, false, true, false, true);
    Register1();
  }

  lemma Register2()
    ensures QuickFour(QuickFour(0xE5EA, false, false, false, false), false, false, false, true) == 0x57AA
  {
    assert QuickFeed(0xE5EA, false) == 0xDBF5;
    assert QuickFeed(0xDBF5, false) == 0xA7CB;
    assert QuickFeed(0xA7CB, false) == 0x5FB7;
    assert QuickFeed(0x5FB7, false) == 0xBF6E;
    assert QuickFeed(0xBF6E, false) == 0x6EFD;
    assert QuickFeed(0x6EFD, false) == 0xDDFA;
    assert QuickFeed(0xDDFA, false) == 0xABD5;
    assert QuickFeed(0xABD5, true) == 0x57AA;
  }

  lemma Byte2(p: seq<byte>)
    requires |p| == 10 && p[2] == 0x01 && CrcFrom(0xFFFF, p[..2]) == 0xE5EA
    ensures CrcFrom(0xFFFF, p[..3]) == 0x57AA
  {
    FedByte(p, 2, false, false, false, false, false, false, false, true);
    Register2();
  }

  lemma Register3()
    ensures QuickFour(QuickFour(0x57AA, false, false, false, false), false, false, false, true) == 0x9033
  {
    assert QuickFeed(0x57AA, false) == 0xAF54;
    assert QuickFeed(0xAF54, false) == 0x4E89;
    assert QuickFeed(0x4E89, false) == 0x9D12;
    assert QuickFeed(0x9D12, false) == 0x2A05;
    assert QuickFeed(0x2A05, false) == 0x540A;
    assert QuickFeed(0x540A, false) == 0xA814;
    assert QuickFeed(0xA814, false) == 0x4009;
    assert QuickFeed(0x4009, true) == 0x9033;
  }

  lemma Byte3(p: seq<byte>)
    requires |p| == 10 && p[3] == 0x01 && CrcFrom(0xFFFF, p[..3]) == 0x57AA
    ensures CrcFrom(0xFFFF, p[..4]) == 0x9033
  {
    FedByte(p, 3, false, false, false, false, false, false, false, true);
    Register3();
  }

  lemma Register4()
    ensures QuickFour(QuickFour(0x9033, false, false, false, false), false, false, false, false) == 0xB0B9
  {
    assert QuickFeed(0x9033, false) == 0x3047;
    assert QuickFeed(0x3047, false) == 0x608E;
    assert QuickFeed(0x608E, false) == 0xC11C;
    assert QuickFeed(0xC11C, false) == 0x9219;
    assert QuickFeed(0x9219, false) == 0x3413;
    assert QuickFeed(0x3413, false) == 0x6826;
    assert QuickFeed(0x6826, false) == 0xD04C;
    assert QuickFeed(0xD04C, false) == 0xB0B9;
  }

  lemma Byte4(p: seq<byte>)
    requires |p| == 10 && p[4] == 0x00 && CrcFrom(0xFFFF, p[..4]) == 0x9033
    ensures CrcFrom(0xFFFF, p[..5]) == 0xB0B9
  {
    FedByte(p, 4, false, false, false, false, false, false, false, false);
    Register4();
  }

  lemma Register5()
    ensures QuickFour(QuickFour(0xB0B9, false, false, false, false), false, false, false, true) == 0x0EFA
  {
    assert QuickFeed(0xB0B9, false) == 0x7153;
    assert QuickFeed(0x7153, false) == 0xE2A6;
    assert QuickFeed(0xE2A6, false) == 0xD56D;
    assert QuickFeed(0xD56D, false) == 0xBAFB;
    assert QuickFeed(0xBAFB, false) == 0x65D7;
    assert QuickFeed(0x65D7, false) == 0xCBAE;
    assert QuickFeed(0xCBAE, false) == 0x877D;
    assert QuickFeed(0x877D, true) == 0x0EFA;
  }

  lemma Byte5(p: seq<byte>)
    requires |p| == 10 && p[5] == 0x01 && CrcFrom(0xFFFF, p[..5]) == 0xB0B9
    ensures CrcFrom(0xFFFF, p[..6]) == 0x0EFA
  {
    FedByte(p, 5, false, false, false, false, false, false, false, true);
    Register5();
  }

  lemma Register6()
    ensures QuickFour(QuickFour(0x0EFA, false, false, false, false), false, false, false, false) == 0x1BCE
  {
    assert QuickFeed(0x0EFA, false) == 0x1DF4;
    assert QuickFeed(0x1DF4, false) == 0x3BE8;
    assert QuickFeed(0x3BE8, false) == 0x77D0;
    assert QuickFeed(0x77D0, false) == 0xEFA0;
    assert QuickFeed(0xEFA0, false) == 0xCF61;
    assert QuickFeed(0xCF61, false) == 0x8EE3;
    assert QuickFeed(0x8EE3, false) == 0x0DE7;
    assert QuickFeed(0x0DE7, false) == 0x1BCE;
  }

  lemma Byte6(p: seq<byte>)
    requires |p| == 10 && p[6] == 0x00 && CrcFrom(0xFFFF, p[..6]) == 0x0EFA
    ensures CrcFrom(0xFFFF, p[..7]) == 0x1BCE
  {
    FedByte(p, 6, false, false, false, false, false, false, false, false);
    Register6();
  }

  lemma Register7()
    ensures QuickFour(QuickFour(0x1BCE, false, false, false, false), false, false, false, false) == 0x6D5A
  {
    assert QuickFeed(0x1BCE, false) == 0x379C;
    assert QuickFeed(0x379C, false) == 0x6F38;
    assert QuickFeed(0x6F38, false) == 0xDE70;
    assert QuickFeed(0xDE70, false) == 0xACC1;
    assert QuickFeed(0xACC1, false) == 0x49A3;
    assert QuickFeed(0x49A3, false) == 0x9346;
    assert QuickFeed(0x9346, false) == 0x36AD;
    assert QuickFeed(0x36AD, false) == 0x6D5A;
  }

  lemma Byte7(p: seq<byte>)
    requires |p| == 10 && p[7] == 0x00 && CrcFrom(0xFFFF, p[..7]) == 0x1BCE
    ensures CrcFrom(0xFFFF, p[..8]) == 0x6D5A
  {
    FedByte(p, 7, false, false, false, false, false, false, false, false);
    Register7();
  }

  lemma Register8()
    ensures QuickFour(QuickFour(0x6D5A, false, false, false, false), false, false, true, true) == 0xD768
  {
    assert QuickFeed(0x6D5A, false) == 0xDAB4;
    assert QuickFeed(0xDAB4, false) == 0xA549;
    assert QuickFeed(0xA549, false) == 0x5AB3;
    assert QuickFeed(0x5AB3, false) == 0xB566;
    assert QuickFeed(0xB566, false) == 0x7AED;
    assert QuickFeed(0x7AED, false) == 0xF5DA;
    assert QuickFeed(0xF5DA, true) == 0xEBB4;
    assert QuickFeed(0xEBB4, true) == 0xD768;
  }

  lemma Byte8(p: seq<byte>)
    requires |p| == 10 && p[8] == 0x03 && CrcFrom(0xFFFF, p[..8]) == 0x6D5A
    ensures CrcFrom(0xFFFF, p[..9]) == 0xD768
  {
    FedByte(p, 8, false, false, false, false, false, false, true, true);
    Register8();
  }

  lemma Register9()
    ensures QuickFour(QuickFour(0xD768, true, true, true, false), true, false, false, false) == 0xAFBC
  {
    assert QuickFeed(0xD768, true) == 0xAED0;
    assert QuickFeed(0xAED0, true) == 0x5DA0;
    assert QuickFeed(0x5DA0, true) == 0xAB61;
    assert QuickFeed(0xAB61, false) == 0x46E3;
    assert QuickFeed(0x46E3, true) == 0x9DE7;
    assert QuickFeed(0x9DE7, false) == 0x2BEF;
    assert QuickFeed(0x2BEF, false) == 0x57DE;
    assert QuickFeed(0x57DE, false) == 0xAFBC;
  }

  lemma Byte9(p: seq<byte>)
    requires |p| == 10 && p[9] == 0xE8 && CrcFrom(0xFFFF, p[..9]) == 0xD768
    ensures CrcFrom(0xFFFF, p[..10]) == 0xAFBC
  {
    FedByte(p, 9, true, true, true, false, true, false, false, false);
    Register9();
  }

  lemma KnownCrc(p: seq<byte>)
    requires |p| == 10 && p[0] == 0xAA && p[1] == 0x55 && p[2] == 0x01 && p[3] == 0x01 && p[4] == 0x00
    requires p[5] == 0x01 && p[6] == 0x00 && p[7] == 0x00 && p[8] == 0x03 && p[9] == 0xE8
    ensures CrcFrom(0xFFFF, p) == 0xAFBC
  {
    assert p[..0] == [];
    Byte0(p);
    Byte1(p);
    Byte2(p);
    Byte3(p);
    Byte4(p);
    Byte5(p);
    Byte6(p);
    Byte7(p);
    Byte8(p);
    Byte9(p);
    assert p[..10] == p;
  }

  // The frame for a temperature of 1.000 degrees with sequence number 1, as sent.
  lemma KnownFrame(f: UartFrame)
    requires f == UartFrame(Temperature, 1, 1000)
    ensures Encode(f) == [0xAA, 0x55, 0x01, 0x01, 0x00, 0x01, 0x00, 0x00, 0x03, 0xE8, 0xAF, 0xBC]
  {
    KnownCrc(Payload(f));
  }

  // ----- The format --------------------------------------------------------------------------------------------

  // Two's complement of four bytes, most significant first.
  predicate Spells(v: int, a: int, b: int, c: int, d: int) {
    v == 0x100_0000 * (if a < 0x80 then a else a - 0x100) + 0x1_0000 * b + 0x100 * c + d
  }

  // Every frame on the wire: AA 55, version 1, the kind as 1 to 4, the sequence number and the value, most
  // significant byte first, and the check value of these ten bytes from the preset FFFF.
  lemma WireFormat(f: UartFrame)
    ensures var w: seq<byte> := Encode(f);
            && |w| == 12 && w[..3] == [0xAA, 0x55, 0x01]
            && w[3] == (match f.kind case Temperature => 1 case Vibration => 2 case Current => 3 case Online => 4)
            && f.sequence == Pair(w[4], w[5])
            && Spells(f.milliValue, w[6], w[7], w[8], w[9])
            && Pair(w[10], w[11]) == CrcFrom(0xFFFF, w[..10])
  {
    var w := Encode(f);
    assert w[..10] == Payload(f);
    FourBytes(Unsigned(f.milliValue));
    SignOfTop(f.milliValue);
  }

  lemma SignOfTop(v: int32)
    ensures Unsigned(v) / 0x100_0000 >= 0x80 <==> v < 0
  {
  }
}
