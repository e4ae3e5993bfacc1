// Which corrupted frames the check catches: exactly those whose error pattern is no multiple of G, among
// them every burst of up to 16 bits, every odd number of flipped bits, and every one to three bits.
module UartErrors {
  import opened Domain
  import opened Gf2
  import opened Crc16
  import opened UartProtocol
  import opened UartStream
  import opened UartResync

  // ----- Bits of byte strings -----------------------------------------------------------------------------------

  lemma {:induction false} LenAppend(a: Bits, b: Bits)
    ensures Len(Append(a, b)) == Len(a) + Len(b)
  {
    match b {
      case Nil =>
      case Snoc(i, _) => LenAppend(a, i);
    }
  }

  lemma {:induction false} AppendAssociates(a: Bits, b: Bits, c: Bits)
    ensures Append(Append(a, b), c) == Append(a, Append(b, c))
  {
    match c {
      case Nil =>
      case Snoc(i, _) => AppendAssociates(a, b, i);
    }
  }

  lemma {:induction false} LenBitsOf(v: nat, n: nat)
    ensures Len(BitsOf(v, n)) == n
  {
    if n > 0 {
      LenBitsOf(v / 2, n - 1);
    }
  }

  lemma {:induction false} LenBytes(bytes: seq<byte>)
    ensures Len(BytesBits(bytes)) == 8 * |bytes|
    decreases |bytes|
  {
    if bytes != [] {
      LenBytes(bytes[..|bytes| - 1]);
      LenBitsOf(bytes[|bytes| - 1], 8);
      LenAppend(BytesBits(bytes[..|bytes| - 1]), BitsOf(bytes[|bytes| - 1], 8));
    }
  }

  lemma {:induction false} BytesAppend(s: seq<byte>, t: seq<byte>)
    ensures BytesBits(s + t) == Append(BytesBits(s), BytesBits(t))
    decreases |t|
  {
    if t == [] {
      assert s + t == s;
    } else {
      var front, b := t[..|t| - 1], t[|t| - 1];
      BytesAppend(s, front);
      assert (s + t)[..|s + t| - 1] == s + front;
      AppendAssociates(BytesBits(s), BytesBits(front), BitsOf(b, 8));
    }
  }

  // ----- Error patterns -----------------------------------------------------------------------------------------------

  lemma {:induction false} FlipBack(a: Bits, b: Bits)
    requires Len(a) == Len(b)
    ensures Flip(a, Flip(a, b)) == b && Len(Flip(a, b)) == Len(a)
  {
    match (a, b) {
      case (Snoc(i, _), Snoc(j, _)) => FlipBack(i, j);
      case _ =>
    }
  }

  lemma {:induction false} FlipSame(a: Bits)
    ensures Flip(a, a) == Zeros(Len(a))
  {
    match a {
      case Nil =>
      case Snoc(i, _) => FlipSame(i);
    }
  }

  lemma {:induction false} FlipAppend(a: Bits, b: Bits, c: Bits, d: Bits)
    requires Len(b) == Len(d)
    ensures Flip(Append(a, b), Append(c, d)) == Append(Flip(a, c), Flip(b, d))
  {
    match (b, d) {
      case (Snoc(i, _), Snoc(j, _)) => FlipAppend(a, i, c, j);
      case _ =>
    }
  }

  lemma {:induction false} FlipDiffers(a: Bits, b: Bits)
    requires Len(a) == Len(b) && a != b
    ensures AnySet(Flip(a, b))
  {
    match (a, b) {
      case (Snoc(i, x), Snoc(j, y)) =>
        if x == y {
          FlipDiffers(i, j);
        }
      case _ =>
    }
  }

  lemma {:induction false} ValueOfBitsOf(v: nat, n: nat)
    requires v < Shl(1, n)
    ensures Value(BitsOf(v, n)) == v
    decreases n
  {
    if n > 0 {
      ValueOfBitsOf(v / 2, n - 1);
    }
  }

  // The bits in which two strings of bytes differ.
  function Error(x: seq<byte>, y: seq<byte>): Bits {
    Flip(BytesBits(x), BytesBits(y))
  }

  // ----- The whole frame is a multiple of G ----------------------------------------------------------------------------

  lemma {:induction false} BitsOfPair(hi: nat, lo: nat, n: nat)
    requires lo < Shl(1, n)
    ensures BitsOf(Shl(hi, n) + lo, 8 + n) == Append(BitsOf(hi, 8), BitsOf(lo, n))
    decreases n
  {
    if n > 0 {
      HalfOfSum(Shl(hi, n - 1), lo);
      BitsOfPair(hi, lo / 2, n - 1);
    }
  }

  lemma ShlEight(v: nat)
    ensures Shl(v, 8) == 0x100 * v
  {
    ShlFour(v);
    ShlFour(Shl(v, 4));
    ShlSum(v, 4, 4);
  }

  // Two bytes fed after r clear the register exactly when they spell r.
  lemma CheckFieldClears(r: Reg, hi: byte, lo: byte)
    ensures FeedByte(FeedByte(r, hi), lo) == 0 <==> r == Pair(hi, lo)
  {
    var v := Pair(hi, lo);
    ShlEight(1);
    ShlEight(hi);
    Widths();
    ByteAhead(r, hi);
    ByteAhead(FeedByte(r, hi), lo);
    FeedAllAppend(r, BitsOf(hi, 8), BitsOf(lo, 8));
    BitsOfPair(hi, lo, 8);
    FeedAhead(r, v, 16);
    StepNKernel(Add(r, v), 16);
    XorIsZero(r, v);
  }

  // The check passes exactly when the check value of all twelve bytes is zero.
  lemma CheckIsResidue(w: seq<byte>)
    requires |w| == 12
    ensures Pair(w[10], w[11]) == Crc(w[..10]) <==> Crc(w) == 0
  {
    var p := w[..10];
    CrcSnoc(PRESET, p, w[10]);
    CrcSnoc(PRESET, p + [w[10]], w[11]);
    assert w == p + [w[10]] + [w[11]];
    CheckFieldClears(Crc(p), w[10], w[11]);
  }

  lemma EncodedResidue(f: UartFrame)
    ensures Crc(Encode(f)) == 0
  {
    EncodedIsGood(f);
    CheckIsResidue(Encode(f));
  }

  // The check value of a corrupted string is that of the original plus that of the error alone.
  lemma ErrorAddsUp(x: seq<byte>, y: seq<byte>)
    requires |x| == |y|
    ensures Crc(y) == Add(Crc(x), FeedAll(0, Error(x, y)))
  {
    var a, b := BytesBits(x), BytesBits(y);
    LenBytes(x);
    LenBytes(y);
    CrcFeedsBits(PRESET, x);
    CrcFeedsBits(PRESET, y);
    FlipBack(a, b);
    FeedAllLinear(PRESET, 0, a, Flip(a, b));
  }

  // With the magic intact, the error is that of bytes 2 to 11, preceded by zeros.
  lemma ErrorBehindMagic(x: seq<byte>, y: seq<byte>)
    requires |x| == |y| == 12 && x[..2] == y[..2]
    ensures Error(x, y) == Append(Zeros(16), Error(x[2..], y[2..])) && Len(Error(x[2..], y[2..])) == 80
  {
    assert x == x[..2] + x[2..] && y == y[..2] + y[2..];
    BytesAppend(x[..2], x[2..]);
    BytesAppend(y[..2], y[2..]);
    LenBytes(x[..2]);
    LenBytes(x[2..]);
    LenBytes(y[2..]);
    FlipAppend(BytesBits(x[..2]), BytesBits(x[2..]), BytesBits(y[..2]), BytesBits(y[2..]));
    FlipSame(BytesBits(x[..2]));
    FlipBack(BytesBits(x[2..]), BytesBits(y[2..]));
  }

  // A corrupted frame passes the check exactly when its error pattern is a multiple of G.
  lemma PassesIffMultiple(f: UartFrame, y: seq<byte>)
    requires |y| == 12 && y[0] == MAGIC_FIRST && y[1] == MAGIC_SECOND
    ensures Judge(y) != BadCrc <==> Mod(Error(Encode(f)[2..], y[2..])) == 0
  {
    var x := Encode(f);
    assert x[..2] == y[..2] == [MAGIC_FIRST, MAGIC_SECOND];
    EncodedResidue(f);
    ErrorAddsUp(x, y);
    ErrorBehindMagic(x, y);
    ErrorVanishesIffMultiple(Error(x, y));
    ModLeadingZeros(16, Error(x[2..], y[2..]));
    CheckIsResidue(y);
  }

  // ----- What is always caught -------------------------------------------------------------------------------------------

  // A non-zero pattern within 16 consecutive bits.
  ghost predicate IsBurst(e: Bits) {
    exists a, w, b :: e == Append(Append(Zeros(a), w), Zeros(b)) && Len(w) <= 16 && AnySet(w)
  }

  predicate IsFew(e: Bits) { 1 <= Ones(e) <= 3 }

  ghost predicate Detectable(e: Bits) {
    IsBurst(e) || Ones(e) % 2 == 1 || IsFew(e)
  }

  lemma DetectableIsNoMultiple(e: Bits)
    requires Len(e) <= 80 && Detectable(e)
    ensures Mod(e) != 0
  {
    if Ones(e) % 2 == 1 {
      OddIsNoMultiple(e);
    } else if IsFew(e) {
      PairIsNoMultiple(e);
    } else {
      AnyBurstIsNoMultiple(e);
    }
  }

  lemma AnyBurstIsNoMultiple(e: Bits)
    requires IsBurst(e)
    ensures Mod(e) != 0
  {
    var a, w, b :| e == Append(Append(Zeros(a), w), Zeros(b)) && Len(w) <= 16 && AnySet(w);
    BurstIsNoMultiple(a, w, b);
  }

  lemma PairIsNoMultiple(e: Bits)
    requires Len(e) <= 80 && Ones(e) == 2
    ensures Mod(e) != 0
  {
    var j, k := TwoBits(e);
    PowerIsNotOne(k - j);
    PowersDiffer(j, k);
  }

  // From a hunting decoder, a frame corrupted behind its magic is rejected, with exactly one check error,
  // if and only if the error is no multiple of G; a burst of up to 16 bits, an odd number of bits and
  // any one, two or three bits never are.
  lemma CorruptionCaught(x: Session, f: UartFrame, y: seq<byte>)
    requires Hunting(x.decoder)
    requires |y| == 12 && y[0] == MAGIC_FIRST && y[1] == MAGIC_SECOND
    ensures var e := Error(Encode(f)[2..], y[2..]);
            var caught := Session(x.decoder.(buffer := [], crcErrors := x.decoder.crcErrors + 1), x.frames);
            && (Listen(x, y) == caught <==> Mod(e) != 0)
            && (Detectable(e) ==> Listen(x, y) == caught)
  {
    var e := Error(Encode(f)[2..], y[2..]);
    WindowJudged(x, y);
    PassesIffMultiple(f, y);
    assert Encode(f)[..2] == y[..2] == [MAGIC_FIRST, MAGIC_SECOND];
    ErrorBehindMagic(Encode(f), y);
    if Detectable(e) {
      DetectableIsNoMultiple(e);
    }
  }

  // Bytes changed in two adjacent places are a burst.
  lemma TwoBytesAreABurst(x: seq<byte>, y: seq<byte>, i: nat)
    requires |x| == |y| && i + 2 <= |x| && x != y
    requires forall k :: 0 <= k < |x| && k != i && k != i + 1 ==> x[k] == y[k]
    ensures IsBurst(Error(x, y))
  {
    var p, u, v, q := x[..i], x[i..i + 2], y[i..i + 2], x[i + 2..];
    assert x == (p + u) + q;
    assert y == (p + v) + q;
    BytesAppend(p + u, q);
    BytesAppend(p + v, q);
    BytesAppend(p, u);
    BytesAppend(p, v);
    LenBytes(u);
    LenBytes(v);
    FlipAppend(BytesBits(p + u), BytesBits(q), BytesBits(p + v), BytesBits(q));
    FlipAppend(BytesBits(p), BytesBits(u), BytesBits(p), BytesBits(v));
    FlipSame(BytesBits(p));
    FlipSame(BytesBits(q));
    var w := Flip(BytesBits(u), BytesBits(v));
    FlipBack(BytesBits(u), BytesBits(v));
    TwoBytesDiffer(u, v);
    FlipDiffers(BytesBits(u), BytesBits(v));
    assert Error(x, y) == Append(Append(Zeros(Len(BytesBits(p))), w), Zeros(Len(BytesBits(q))));
  }

  // So any change to one byte, or to two adjacent bytes, behind the magic of a frame is caught.
  lemma TwoBytesAreCaught(x: Session, f: UartFrame, y: seq<byte>, i: nat)
    requires Hunting(x.decoder)
    requires |y| == 12 && 2 <= i <= 10 && y != Encode(f)
    requires forall k :: 0 <= k < 12 && k != i && k != i + 1 ==> y[k] == Encode(f)[k]
    ensures Listen(x, y) == Session(x.decoder.(buffer := [], crcErrors := x.decoder.crcErrors + 1), x.frames)
  {
    var sent, got := Encode(f)[2..], y[2..];
    assert forall k :: 0 <= k < 10 ==> sent[k] == Encode(f)[k + 2] && got[k] == y[k + 2];
    assert y == y[..2] + got && Encode(f) == Encode(f)[..2] + sent;
    assert y[..2] == Encode(f)[..2] == [MAGIC_FIRST, MAGIC_SECOND];
    TwoBytesAreABurst(sent, got, i - 2);
    CorruptionCaught(x, f, y);
  }

  lemma TwoBytesDiffer(u: seq<byte>, v: seq<byte>)
    requires |u| == |v| == 2 && u != v
    ensures BytesBits(u) != BytesBits(v)
  {
    PairValue(u);
    PairValue(v);
    PairInjective(u[0], u[1], v[0], v[1]);
    assert u == [u[0], u[1]] && v == [v[0], v[1]];
  }

  lemma PairInjective(a: byte, b: byte, c: byte, d: byte)
    ensures Pair(a, b) == Pair(c, d) <==> a == c && b == d
  {
  }

  lemma PairValue(u: seq<byte>)
    requires |u| == 2
    ensures Value(BytesBits(u)) == Pair(u[0], u[1])
  {
    var hi, lo := u[0], u[1];
    assert u == [hi] + [lo];
    BytesAppend([hi], [lo]);
    OneByte(hi);
    OneByte(lo);
    ShlEight(1);
    ShlEight(hi);
    BitsOfPair(hi, lo, 8);
    ShlBound(hi, 8, 8);
    Widths();
    ValueOfBitsOf(Pair(hi, lo), 16);
  }

  lemma OneByte(b: byte)
    ensures BytesBits([b]) == BitsOf(b, 8)
  {
    assert [b][..0] == [];
    AppendNil(BitsOf(b, 8));
  }

  lemma {:induction false} AppendNil(w: Bits)
    ensures Append(Nil, w) == w
  {
    match w {
      case Nil =>
      case Snoc(i, _) => AppendNil(i);
    }
  }
}
