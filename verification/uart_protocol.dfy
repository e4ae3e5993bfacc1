// The UART frame format: encoder, and the byte-at-a-time decoder that hunts for the next frame.
module UartProtocol {
  import opened Domain
  import opened Crc16

  const MAGIC_FIRST: byte := 0xAA
  const MAGIC_SECOND: byte := 0x55
  const VERSION: byte := 0x01
  const FRAME_SIZE := 12

  type uint16 = x: int | 0 <= x < 0x10000
  type int32 = x: int | -0x8000_0000 <= x < 0x8000_0000

  datatype MeasurementKind = Temperature | Vibration | Current | Online

  datatype UartFrame = UartFrame(kind: MeasurementKind, sequence: uint16, milliValue: int32)

  function KindCode(k: MeasurementKind): byte {
    match k case Temperature => 1 case Vibration => 2 case Current => 3 case Online => 4
  }

  function KindOf(b: byte): MeasurementKind
    requires 1 <= b <= 4
  {
    if b == 1 then Temperature else if b == 2 then Vibration else if b == 3 then Current else Online
  }

  // Two's complement, both ways.
  function Unsigned(v: int32): (u: nat)
    ensures u < 0x1_0000_0000
  {
    if v < 0 then v + 0x1_0000_0000 else v
  }

  function Signed(u: nat): int32
    requires u < 0x1_0000_0000
  {
    if u >= 0x8000_0000 then u - 0x1_0000_0000 else u
  }

  // Big-endian numbers from bytes.
  function Pair(hi: int, lo: int): int { 0x100 * hi + lo }

  function Quad(a: int, b: int, c: int, d: int): int { 0x100_0000 * a + 0x1_0000 * b + 0x100 * c + d }

  // ----- Encoding ---------------------------------------------------------------------------------------------

  function Payload(f: UartFrame): (p: seq<byte>)
    ensures |p| == 10
  {
    var raw := Unsigned(f.milliValue);
    [MAGIC_FIRST, MAGIC_SECOND, VERSION, KindCode(f.kind),
     f.sequence / 0x100, f.sequence % 0x100,
     raw / 0x100_0000, raw / 0x1_0000 % 0x100, raw / 0x100 % 0x100, raw % 0x100]
  }

  function Encode(f: UartFrame): (bytes: seq<byte>)
    ensures |bytes| == 12
  {
    var crc := Crc(Payload(f));
    Payload(f) + [crc / 0x100, crc % 0x100]
  }

  method EncodeUartFrame(f: UartFrame) returns (bytes: array<byte>)
    ensures fresh(bytes) && bytes[..] == Encode(f)
  {
    bytes := new byte[FRAME_SIZE](_ => 0);
    FillPayload(f, bytes);
    var crc := Crc16Ccitt(bytes[..10]);
    bytes[10] := crc / 0x100;
    bytes[11] := crc % 0x100;
    assert bytes[..] == bytes[..10] + [crc / 0x100, crc % 0x100];
  }

  method FillPayload(f: UartFrame, bytes: array<byte>)
    requires bytes.Length == FRAME_SIZE
    modifies bytes
    ensures bytes[..10] == Payload(f)
  {
    bytes[0] := MAGIC_FIRST;
    bytes[1] := MAGIC_SECOND;
    bytes[2] := VERSION;
    bytes[3] := KindCode(f.kind);
    bytes[4] := f.sequence / 0x100;
    bytes[5] := f.sequence % 0x100;
    var raw := Unsigned(f.milliValue);
    bytes[6] := raw / 0x100_0000;
    bytes[7] := raw / 0x1_0000 % 0x100;
    bytes[8] := raw / 0x100 % 0x100;
    bytes[9] := raw % 0x100;
  }

  // ----- Decoding ---------------------------------------------------------------------------------------------

  datatype Verdict = Good(frame: UartFrame) | BadCrc | BadFormat

  // The judgement on twelve collected bytes.
  function Judge(w: seq<byte>): Verdict
    requires |w| == 12
  {
    if Pair(w[10], w[11]) != Crc(w[..10]) then BadCrc
    else if w[2] != VERSION then BadFormat
    else if w[3] < 1 || w[3] > 4 then BadFormat
    else Good(UartFrame(KindOf(w[3]), Pair(w[4], w[5]), Signed(Quad(w[6], w[7], w[8], w[9]))))
  }

  // `buffer` holds the bytes collected so far; its length is the decoder's position.
  datatype Decoder = Decoder(buffer: seq<byte>, crcErrors: nat, formatErrors: nat)

  const FRESH := Decoder([], 0, 0)

  predicate ValidDecoder(d: Decoder) {
    && |d.buffer| < 12
    && (|d.buffer| > 0 ==> d.buffer[0] == MAGIC_FIRST)
    && (|d.buffer| > 1 ==> d.buffer[1] == MAGIC_SECOND)
  }

  function Accept(d: Decoder, b: byte): (Decoder, Option<UartFrame>) {
    if |d.buffer| == 0 then
      (if b == MAGIC_FIRST then d.(buffer := [b]) else d, None)
    else if |d.buffer| == 1 then
      (if b == MAGIC_SECOND then d.(buffer := d.buffer + [b])
       else if b != MAGIC_FIRST then d.(buffer := []) else d, None)
    else
      var w := d.buffer + [b];
      if |w| != 12 then (d.(buffer := w), None)
      else match Judge(w)
        case Good(f) => (d.(buffer := []), Some(f))
        case BadCrc => (d.(buffer := [], crcErrors := d.crcErrors + 1), None)
        case BadFormat => (d.(buffer := [], formatErrors := d.formatErrors + 1), None)
  }

  lemma AcceptKeepsValid(d: Decoder, b: byte)
    requires ValidDecoder(d)
    ensures ValidDecoder(Accept(d, b).0)
  {
  }

  class UartFrameDecoder {
    const buffer: array<byte>
    var position: nat
    var crcErrors: nat
    var formatErrors: nat

    ghost predicate Valid()
      reads this, buffer
    {
      buffer.Length == 12 && position < 12 && ValidDecoder(Value())
    }

    // Bytes beyond the position are leftovers and do not count.
    ghost function Value(): Decoder
      requires buffer.Length == 12 && position < 12
      reads this, buffer
    {
      Decoder(buffer[..position], crcErrors, formatErrors)
    }

    constructor ()
      ensures Valid() && fresh(buffer) && Value() == FRESH
    {
      buffer := new byte[12](_ => 0);
      position, crcErrors, formatErrors := 0, 0, 0;
    }

    method Feed(b: byte) returns (r: Option<UartFrame>)
      requires Valid()
      modifies this, buffer
      ensures Valid()
      ensures (Value(), r) == Accept(old(Value()), b)
    {
      ghost var was := Value();
      AcceptKeepsValid(was, b);
      if position == 0 {
        if b == MAGIC_FIRST {
          buffer[position] := b;
          position := position + 1;
          assert buffer[..1] == was.buffer + [b] == [b];
        }
        return None;
      }
      if position == 1 {
        if b == MAGIC_SECOND {
          buffer[position] := b;
          position := position + 1;
          assert buffer[..2] == was.buffer + [b];
        } else if b != MAGIC_FIRST {
          position := 0;
        }
        return None;
      }
      r := Collect(b);
    }

    // A byte after the magic: store it, and judge the frame when it is the twelfth.
    method Collect(b: byte) returns (r: Option<UartFrame>)
      requires Valid() && position >= 2
      modifies this, buffer
      ensures buffer.Length == 12 && position < 12
      ensures (Value(), r) == Accept(old(Value()), b)
    {
      ghost var w := buffer[..position] + [b];
      buffer[position] := b;
      position := position + 1;
      assert buffer[..position] == w;
      if position < buffer.Length {
        return None;
      }
      position := 0;
      assert buffer[..] == w && buffer[..0] == [];
      r := JudgeBuffer();
    }

    // The checks on a full buffer, in the program's order.
    method JudgeBuffer() returns (r: Option<UartFrame>)
      requires buffer.Length == 12 && position == 0
      modifies this`crcErrors, this`formatErrors
      ensures r == match Judge(buffer[..]) case Good(f) => Some(f) case _ => None
      ensures crcErrors == old(crcErrors) + if Judge(buffer[..]) == BadCrc then 1 else 0
      ensures formatErrors == old(formatErrors) + if Judge(buffer[..]) == BadFormat then 1 else 0
    {
      var expected := Pair(buffer[10], buffer[11]);
      var actual := Crc16Ccitt(buffer[..10]);
      assert buffer[..][..10] == buffer[..10];
      if expected != actual {
        crcErrors := crcErrors + 1;
        return None;
      }
      if buffer[2] != VERSION {
        formatErrors := formatErrors + 1;
        return None;
      }
      var kind := buffer[3];
      if kind < 1 || kind > 4 {
        formatErrors := formatErrors + 1;
        return None;
      }
      var sequence := Pair(buffer[4], buffer[5]);
      var raw := Quad(buffer[6], buffer[7], buffer[8], buffer[9]);
      return Some(UartFrame(KindOf(kind), sequence, Signed(raw)));
    }
  }

  // ----- One frame --------------------------------------------------------------------------------------------

  lemma FourBytes(u: nat)
    requires u < 0x1_0000_0000
    ensures u / 0x100_0000 < 0x100
    ensures Quad(u / 0x100_0000, u / 0x1_0000 % 0x100, u / 0x100 % 0x100, u % 0x100) == u
  {
    var a, b := u / 0x100, u / 0x1_0000;
    assert u == 0x100 * a + u % 0x100;
    assert a / 0x100 == b && b / 0x100 == u / 0x100_0000;
  }

  // What is encoded is judged to be that frame.
  lemma EncodedIsGood(f: UartFrame)
    ensures Judge(Encode(f)) == Good(f)
  {
    var w := Encode(f);
    assert w[..10] == Payload(f);
    FourBytes(Unsigned(f.milliValue));
  }

  lemma BytesOfFour(a: byte, b: byte, c: byte, d: byte)
    ensures var u := Quad(a, b, c, d);
            && 0 <= u < 0x1_0000_0000
            && u / 0x100_0000 == a && u / 0x1_0000 % 0x100 == b && u / 0x100 % 0x100 == c && u % 0x100 == d
  {
    var u := Quad(a, b, c, d);
    assert u / 0x100 == Quad(0, a, b, c);
    assert u / 0x1_0000 == Pair(a, b);
  }

  // Twelve bytes that start with the magic are judged to be a frame only if they are its encoding.
  lemma GoodIsEncoded(w: seq<byte>, f: UartFrame)
    requires |w| == 12 && w[0] == MAGIC_FIRST && w[1] == MAGIC_SECOND
    requires Judge(w) == Good(f)
    ensures w == Encode(f)
  {
    BytesOfFour(w[6], w[7], w[8], w[9]);
    assert w[..10] == Payload(f);
    assert w == w[..10] + [w[10], w[11]];
  }
}
