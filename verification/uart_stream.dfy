// The decoder over whole byte streams: an exact, lossless parser.
module UartStream {
  import opened Domain
  import opened Crc16
  import opened UartProtocol

  // A decoder and the frames it has emitted so far.
  datatype Session = Session(decoder: Decoder, frames: seq<UartFrame>)

  const START := Session(FRESH, [])

  function Hear(x: Session, b: byte): Session {
    var (d, r) := Accept(x.decoder, b);
    Session(d, if r.Some? then x.frames + [r.value] else x.frames)
  }

  // The session after a stream of bytes.
  function Listen(x: Session, s: seq<byte>): Session
    decreases |s|
  {
    if s == [] then x else Hear(Listen(x, s[..|s| - 1]), s[|s| - 1])
  }

  lemma ListenSnoc(x: Session, s: seq<byte>, b: byte)
    ensures Listen(x, s + [b]) == Hear(Listen(x, s), b)
  {
    assert (s + [b])[..|s + [b]| - 1] == s;
  }

  lemma {:induction false} ListenAppend(x: Session, s: seq<byte>, t: seq<byte>)
    ensures Listen(x, s + t) == Listen(Listen(x, s), t)
    decreases |t|
  {
    if t == [] {
      assert s + t == s;
    } else {
      var front, b := t[..|t| - 1], t[|t| - 1];
      ListenAppend(x, s, front);
      assert s + t == (s + front) + [b];
      ListenSnoc(x, s + front, b);
    }
  }

  // ----- A lossless parse -----------------------------------------------------------------------------------

  // How the decoder cuts a stream up.
  datatype Segment =
    | Skipped(value: byte)
    | Frame(frame: UartFrame)
    | Damaged(bytes: seq<byte>)
    | Malformed(bytes: seq<byte>)

  function SegmentBytes(g: Segment): seq<byte> {
    match g
    case Skipped(b) => [b]
    case Frame(f) => Encode(f)
    case Damaged(w) => w
    case Malformed(w) => w
  }

  // The segments that byte b completes.
  function Cut(d: Decoder, b: byte): seq<Segment> {
    if |d.buffer| == 0 then if b == MAGIC_FIRST then [] else [Skipped(b)]
    else if |d.buffer| == 1 then
      if b == MAGIC_SECOND then []
      else if b == MAGIC_FIRST then [Skipped(MAGIC_FIRST)]
      else [Skipped(MAGIC_FIRST), Skipped(b)]
    else if |d.buffer| != 11 then []
    else
      var w := d.buffer + [b];
      match Judge(w)
      case Good(f) => [Frame(f)]
      case BadCrc => [Damaged(w)]
      case BadFormat => [Malformed(w)]
  }

  function Parse(s: seq<byte>): seq<Segment>
    decreases |s|
  {
    if s == [] then [] else Parse(s[..|s| - 1]) + Cut(Listen(START, s[..|s| - 1]).decoder, s[|s| - 1])
  }

  function Flatten(gs: seq<Segment>): seq<byte> {
    if gs == [] then [] else Flatten(gs[..|gs| - 1]) + SegmentBytes(gs[|gs| - 1])
  }

  function FramesOf(gs: seq<Segment>): seq<UartFrame> {
    if gs == [] then []
    else
      var g := gs[|gs| - 1];
      FramesOf(gs[..|gs| - 1]) + if g.Frame? then [g.frame] else []
  }

  datatype Tally = Tally(skipped: nat, frames: nat, damaged: nat, malformed: nat)

  function Count(gs: seq<Segment>): Tally {
    if gs == [] then Tally(0, 0, 0, 0)
    else
      var t := Count(gs[..|gs| - 1]);
      match gs[|gs| - 1]
      case Skipped(_) => t.(skipped := t.skipped + 1)
      case Frame(_) => t.(frames := t.frames + 1)
      case Damaged(_) => t.(damaged := t.damaged + 1)
      case Malformed(_) => t.(malformed := t.malformed + 1)
  }

  lemma FlattenSnoc(gs: seq<Segment>, g: Segment)
    ensures Flatten(gs + [g]) == Flatten(gs) + SegmentBytes(g)
  {
    assert (gs + [g])[..|gs + [g]| - 1] == gs;
  }

  lemma CountSnoc(gs: seq<Segment>, g: Segment)
    ensures FramesOf(gs + [g]) == FramesOf(gs) + if g.Frame? then [g.frame] else []
    ensures Count(gs + [g]) == match g
      case Skipped(_) => Count(gs).(skipped := Count(gs).skipped + 1)
      case Frame(_) => Count(gs).(frames := Count(gs).frames + 1)
      case Damaged(_) => Count(gs).(damaged := Count(gs).damaged + 1)
      case Malformed(_) => Count(gs).(malformed := Count(gs).malformed + 1)
  {
    assert (gs + [g])[..|gs + [g]| - 1] == gs;
  }

  // The segments and the buffer are the stream.
  ghost predicate Lossless(s: seq<byte>, gs: seq<Segment>, d: Decoder) {
    ValidDecoder(d) && Flatten(gs) + d.buffer == s
  }

  // The decoder's output and counters, read off the segments cut from n bytes.
  ghost predicate Tallied(n: nat, gs: seq<Segment>, x: Session) {
    var d, t := x.decoder, Count(gs);
    && FramesOf(gs) == x.frames
    && t.frames == |x.frames| && t.damaged == d.crcErrors && t.malformed == d.formatErrors
    && n == t.skipped + 12 * (t.frames + t.damaged + t.malformed) + |d.buffer|
  }

  lemma LosslessAtStart(s: seq<byte>, gs: seq<Segment>, d: Decoder, b: byte)
    requires Lossless(s, gs, d) && |d.buffer| == 0
    ensures Lossless(s + [b], gs + Cut(d, b), Accept(d, b).0)
  {
    FlattenSnoc(gs, Skipped(b));
    assert gs + [] == gs;
  }

  lemma LosslessMagic(s: seq<byte>, gs: seq<Segment>, d: Decoder)
    requires Lossless(s, gs, d) && d.buffer == [MAGIC_FIRST]
    ensures Lossless(s + [MAGIC_SECOND], gs + Cut(d, MAGIC_SECOND), Accept(d, MAGIC_SECOND).0)
  {
    assert gs + Cut(d, MAGIC_SECOND) == gs;
    assert Flatten(gs) + (d.buffer + [MAGIC_SECOND]) == Flatten(gs) + d.buffer + [MAGIC_SECOND];
  }

  lemma LosslessRepeat(s: seq<byte>, gs: seq<Segment>, d: Decoder)
    requires Lossless(s, gs, d) && d.buffer == [MAGIC_FIRST]
    ensures Lossless(s + [MAGIC_FIRST], gs + Cut(d, MAGIC_FIRST), Accept(d, MAGIC_FIRST).0)
  {
    FlattenSnoc(gs, Skipped(MAGIC_FIRST));
  }

  lemma LosslessMiss(s: seq<byte>, gs: seq<Segment>, d: Decoder, b: byte)
    requires Lossless(s, gs, d) && d.buffer == [MAGIC_FIRST] && b != MAGIC_FIRST && b != MAGIC_SECOND
    ensures Lossless(s + [b], gs + Cut(d, b), Accept(d, b).0)
  {
    var skip := Skipped(MAGIC_FIRST);
    FlattenSnoc(gs, skip);
    FlattenSnoc(gs + [skip], Skipped(b));
    assert gs + Cut(d, b) == gs + [skip] + [Skipped(b)];
    assert Flatten(gs + Cut(d, b)) + [] == s + [b];
  }

  lemma LosslessAfterFirst(s: seq<byte>, gs: seq<Segment>, d: Decoder, b: byte)
    requires Lossless(s, gs, d) && |d.buffer| == 1
    ensures Lossless(s + [b], gs + Cut(d, b), Accept(d, b).0)
  {
    assert d.buffer == [MAGIC_FIRST];
    if b == MAGIC_SECOND {
      LosslessMagic(s, gs, d);
    } else if b == MAGIC_FIRST {
      LosslessRepeat(s, gs, d);
    } else {
      LosslessMiss(s, gs, d, b);
    }
  }

  // The twelfth byte completes one segment made of the whole window.
  lemma TwelfthByte(d: Decoder, b: byte)
    requires ValidDecoder(d) && |d.buffer| == 11
    ensures |Cut(d, b)| == 1 && SegmentBytes(Cut(d, b)[0]) == d.buffer + [b]
    ensures Accept(d, b).0.buffer == []
  {
    var w := d.buffer + [b];
    if Judge(w).Good? {
      GoodIsEncoded(w, Judge(w).frame);
    }
  }

  lemma LosslessCollecting(s: seq<byte>, gs: seq<Segment>, d: Decoder, b: byte)
    requires Lossless(s, gs, d) && |d.buffer| >= 2
    ensures Lossless(s + [b], gs + Cut(d, b), Accept(d, b).0)
  {
    var w := d.buffer + [b];
    assert Flatten(gs) + w == s + [b];
    if |w| == 12 {
      TwelfthByte(d, b);
      FlattenSnoc(gs, Cut(d, b)[0]);
      assert gs + Cut(d, b) == gs + [Cut(d, b)[0]];
      assert Flatten(gs + Cut(d, b)) + [] == s + [b];
    } else {
      assert gs + Cut(d, b) == gs;
    }
  }

  lemma TalliedHunting(n: nat, gs: seq<Segment>, x: Session, b: byte)
    requires Tallied(n, gs, x) && |x.decoder.buffer| <= 1
    ensures Tallied(n + 1, gs + Cut(x.decoder, b), Hear(x, b))
  {
    assert gs + [] == gs;
    if |x.decoder.buffer| == 0 {
      CountSnoc(gs, Skipped(b));
    } else {
      CountSnoc(gs, Skipped(MAGIC_FIRST));
      CountSnoc(gs + [Skipped(MAGIC_FIRST)], Skipped(b));
      assert gs + [Skipped(MAGIC_FIRST), Skipped(b)] == gs + [Skipped(MAGIC_FIRST)] + [Skipped(b)];
    }
  }

  lemma TalliedCollecting(n: nat, gs: seq<Segment>, x: Session, b: byte)
    requires Tallied(n, gs, x) && 2 <= |x.decoder.buffer| < 12
    ensures Tallied(n + 1, gs + Cut(x.decoder, b), Hear(x, b))
  {
    if |x.decoder.buffer| == 11 {
      TalliedWindow(n, gs, x, b);
    } else {
      assert gs + Cut(x.decoder, b) == gs;
    }
  }

  lemma TalliedWindow(n: nat, gs: seq<Segment>, x: Session, b: byte)
    requires Tallied(n, gs, x) && |x.decoder.buffer| == 11
    ensures Tallied(n + 1, gs + Cut(x.decoder, b), Hear(x, b))
  {
    CountSnoc(gs, Cut(x.decoder, b)[0]);
  }

  ghost predicate Exact(s: seq<byte>) {
    Lossless(s, Parse(s), Listen(START, s).decoder) && Tallied(|s|, Parse(s), Listen(START, s))
  }

  // Every byte stream is cut, without loss, into skipped bytes, exact encodings of the emitted frames,
  // windows counted as damaged and windows counted as malformed; what is left is the buffer.
  lemma {:induction false} DecoderIsExact(s: seq<byte>)
    ensures Exact(s)
    decreases |s|
  {
    if s == [] {
      ExactNothing();
    } else {
      var front, b := s[..|s| - 1], s[|s| - 1];
      assert s == front + [b];
      DecoderIsExact(front);
      ExactNext(front, b);
    }
  }

  lemma ExactNothing()
    ensures Exact([])
  {
    assert Flatten([]) + FRESH.buffer == [];
  }

  lemma ParseSnoc(s: seq<byte>, b: byte)
    ensures Parse(s + [b]) == Parse(s) + Cut(Listen(START, s).decoder, b)
  {
    assert (s + [b])[..|s + [b]| - 1] == s;
  }

  lemma ExactNext(s: seq<byte>, b: byte)
    requires Exact(s)
    ensures Exact(s + [b])
  {
    var x, gs := Listen(START, s), Parse(s);
    ParseSnoc(s, b);
    ListenSnoc(START, s, b);
    ExactStep(s, gs, x, b);
  }

  lemma ExactStep(s: seq<byte>, gs: seq<Segment>, x: Session, b: byte)
    requires Lossless(s, gs, x.decoder) && Tallied(|s|, gs, x)
    ensures Lossless(s + [b], gs + Cut(x.decoder, b), Hear(x, b).decoder)
    ensures Tallied(|s| + 1, gs + Cut(x.decoder, b), Hear(x, b))
  {
    if |x.decoder.buffer| == 0 {
      LosslessAtStart(s, gs, x.decoder, b);
      TalliedHunting(|s|, gs, x, b);
    } else if |x.decoder.buffer| == 1 {
      LosslessAfterFirst(s, gs, x.decoder, b);
      TalliedHunting(|s|, gs, x, b);
    } else {
      LosslessCollecting(s, gs, x.decoder, b);
      TalliedCollecting(|s|, gs, x, b);
    }
  }

  // Whenever a frame is emitted, the last twelve bytes fed are its encoding.
  lemma EmissionIsLastTwelve(s: seq<byte>, b: byte, f: UartFrame)
    requires Accept(Listen(START, s).decoder, b).1 == Some(f)
    ensures |s| >= 11 && s[|s| - 11..] + [b] == Encode(f)
  {
    DecoderIsExact(s);
    LastTwelve(Flatten(Parse(s)), Listen(START, s).decoder, b, f);
  }

  lemma LastTwelve(done: seq<byte>, d: Decoder, b: byte, f: UartFrame)
    requires ValidDecoder(d) && Accept(d, b).1 == Some(f)
    ensures |d.buffer| == 11 && (done + d.buffer)[|done + d.buffer| - 11..] + [b] == Encode(f)
  {
    GoodIsEncoded(d.buffer + [b], f);
    assert (done + d.buffer)[|done + d.buffer| - 11..] == d.buffer;
  }
}
