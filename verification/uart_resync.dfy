// Noise between frames, joining a stream in the middle, and the streams that are never joined.
module UartResync {
  import opened Domain
  import opened Crc16
  import opened UartProtocol
  import opened UartStream

  predicate Hunting(d: Decoder) { ValidDecoder(d) && |d.buffer| <= 1 }

  predicate NoMagic(s: seq<byte>) {
    forall i :: 0 <= i < |s| - 1 ==> !(s[i] == MAGIC_FIRST && s[i + 1] == MAGIC_SECOND)
  }

  // ----- Noise --------------------------------------------------------------------------------------------------

  // What a hunting decoder keeps of a byte that does not complete the magic.
  function Kept(b: byte): seq<byte> { if b == MAGIC_FIRST then [b] else [] }

  lemma NoiseByte(x: Session, b: byte)
    requires Hunting(x.decoder) && !(|x.decoder.buffer| == 1 && b == MAGIC_SECOND)
    ensures Hear(x, b) == x.(decoder := x.decoder.(buffer := Kept(b))) && Hunting(Hear(x, b).decoder)
  {
  }

  lemma NoMagicFront(t: seq<byte>, b: byte)
    requires NoMagic(t + [b])
    ensures NoMagic(t)
    ensures t != [] && t[|t| - 1] == MAGIC_FIRST ==> b != MAGIC_SECOND
  {
    var u := t + [b];
    assert forall i :: 0 <= i < |t| ==> u[i] == t[i];
    if t != [] {
      assert u[|t| - 1] == t[|t| - 1] && u[|t|] == b;
    }
  }

  // The noise so far was ignored: only its last byte may still matter.
  ghost predicate Ignored(x: Session, s: seq<byte>, y: Session) {
    var t := x.decoder.buffer + s;
    && y == x.(decoder := x.decoder.(buffer := if t == [] then [] else Kept(t[|t| - 1])))
    && Hunting(y.decoder)
  }

  lemma IgnoredNext(x: Session, s: seq<byte>, y: Session, b: byte)
    requires Ignored(x, s, y) && NoMagic(x.decoder.buffer + s + [b])
    ensures Ignored(x, s + [b], Hear(y, b))
  {
    NoMagicFront(x.decoder.buffer + s, b);
    NoiseByte(y, b);
    assert x.decoder.buffer + (s + [b]) == x.decoder.buffer + s + [b];
  }

  // Noise without the magic leaves frames and error counts alone and keeps the decoder hunting.
  lemma {:induction false} NoiseIgnored(x: Session, s: seq<byte>)
    requires Hunting(x.decoder) && NoMagic(x.decoder.buffer + s)
    ensures Ignored(x, s, Listen(x, s))
    decreases |s|
  {
    if s == [] {
      assert x.decoder.buffer + s == x.decoder.buffer;
    } else {
      var front, b := s[..|s| - 1], s[|s| - 1];
      assert s == front + [b];
      assert x.decoder.buffer + s == x.decoder.buffer + front + [b];
      NoMagicFront(x.decoder.buffer + front, b);
      NoiseIgnored(x, front);
      ListenSnoc(x, front, b);
      IgnoredNext(x, front, Listen(x, front), b);
    }
  }

  // ----- One window ---------------------------------------------------------------------------------------------

  lemma {:induction false} CollectAll(x: Session, s: seq<byte>)
    requires |x.decoder.buffer| >= 2 && |x.decoder.buffer| + |s| < 12
    ensures Listen(x, s) == x.(decoder := x.decoder.(buffer := x.decoder.buffer + s))
    decreases |s|
  {
    if s == [] {
      assert x.decoder.buffer + s == x.decoder.buffer;
    } else {
      var front, b := s[..|s| - 1], s[|s| - 1];
      assert s == front + [b];
      CollectAll(x, front);
      ListenSnoc(x, front, b);
      assert x.decoder.buffer + front + [b] == x.decoder.buffer + s;
    }
  }

  // The session after a full window w.
  function Settled(x: Session, w: seq<byte>): Session
    requires |w| == 12
  {
    var d := x.decoder.(buffer := []);
    match Judge(w)
    case Good(f) => Session(d, x.frames + [f])
    case BadCrc => Session(d.(crcErrors := d.crcErrors + 1), x.frames)
    case BadFormat => Session(d.(formatErrors := d.formatErrors + 1), x.frames)
  }

  // From wherever it stands inside a window, a decoder finishes it and judges it.
  lemma WindowFinished(x: Session, s: seq<byte>)
    requires |x.decoder.buffer| >= 2 && |x.decoder.buffer| + |s| == 12 && s != []
    ensures Listen(x, s) == Settled(x, x.decoder.buffer + s)
  {
    var front, b := s[..|s| - 1], s[|s| - 1];
    assert s == front + [b];
    CollectAll(x, front);
    ListenSnoc(x, front, b);
    assert x.decoder.buffer + front + [b] == x.decoder.buffer + s;
  }

  lemma MagicHeard(x: Session)
    requires Hunting(x.decoder)
    ensures Listen(x, [MAGIC_FIRST, MAGIC_SECOND])
            == x.(decoder := x.decoder.(buffer := [MAGIC_FIRST, MAGIC_SECOND]))
  {
    var one := [MAGIC_FIRST];
    assert [] + [MAGIC_FIRST] == one && one + [MAGIC_SECOND] == [MAGIC_FIRST, MAGIC_SECOND];
    ListenSnoc(x, [], MAGIC_FIRST);
    NoiseByte(x, MAGIC_FIRST);
    ListenSnoc(x, one, MAGIC_SECOND);
    assert Kept(MAGIC_FIRST) + [MAGIC_SECOND] == [MAGIC_FIRST, MAGIC_SECOND];
  }

  // A hunting decoder judges any twelve bytes that start with the magic.
  lemma WindowJudged(x: Session, w: seq<byte>)
    requires Hunting(x.decoder)
    requires |w| == 12 && w[0] == MAGIC_FIRST && w[1] == MAGIC_SECOND
    ensures Listen(x, w) == Settled(x, w)
  {
    var magic := [MAGIC_FIRST, MAGIC_SECOND];
    assert w == magic + w[2..];
    MagicHeard(x);
    ListenAppend(x, magic, w[2..]);
    WindowFinished(Listen(x, magic), w[2..]);
  }

  lemma FrameHeard(x: Session, f: UartFrame)
    requires Hunting(x.decoder)
    ensures Listen(x, Encode(f)) == Session(x.decoder.(buffer := []), x.frames + [f])
  {
    WindowJudged(x, Encode(f));
    EncodedIsGood(f);
  }

  // ----- Noisy round trip -----------------------------------------------------------------------------------------

  datatype Chunk = Chunk(noise: seq<byte>, frame: UartFrame)

  function Stream(cs: seq<Chunk>): seq<byte> {
    if cs == [] then []
    else Stream(cs[..|cs| - 1]) + (cs[|cs| - 1].noise + Encode(cs[|cs| - 1].frame))
  }

  function Sent(cs: seq<Chunk>): (fs: seq<UartFrame>)
    ensures |fs| == |cs| && forall i :: 0 <= i < |fs| ==> fs[i] == cs[i].frame
  {
    seq(|cs|, i requires 0 <= i < |cs| => cs[i].frame)
  }

  lemma ChunkHeard(x: Session, c: Chunk)
    requires x.decoder.buffer == [] && NoMagic(c.noise)
    ensures Listen(x, c.noise + Encode(c.frame)) == Session(x.decoder, x.frames + [c.frame])
  {
    ListenAppend(x, c.noise, Encode(c.frame));
    assert x.decoder.buffer + c.noise == c.noise;
    NoiseIgnored(x, c.noise);
    FrameHeard(Listen(x, c.noise), c.frame);
  }

  // Frames between stretches of noise that do not contain the magic come out one for one, in order,
  // and no error is counted.
  lemma {:induction false} NoisyRoundTrip(cs: seq<Chunk>)
    requires forall i :: 0 <= i < |cs| ==> NoMagic(cs[i].noise)
    ensures Listen(START, Stream(cs)) == Session(FRESH, Sent(cs))
    decreases |cs|
  {
    if cs == [] {
      assert Sent(cs) == [];
    } else {
      var front, c := cs[..|cs| - 1], cs[|cs| - 1];
      NoisyRoundTrip(front);
      assert cs == front + [c];
      ChunkAdded(front, c);
    }
  }

  lemma ChunkAdded(front: seq<Chunk>, c: Chunk)
    requires Listen(START, Stream(front)) == Session(FRESH, Sent(front)) && NoMagic(c.noise)
    ensures Listen(START, Stream(front + [c])) == Session(FRESH, Sent(front + [c]))
  {
    assert (front + [c])[..|front + [c]| - 1] == front;
    ListenAppend(START, Stream(front), c.noise + Encode(c.frame));
    ChunkHeard(Session(FRESH, Sent(front)), c);
    assert Sent(front + [c]) == Sent(front) + [c.frame];
  }

  lemma NoiseAfterwards(cs: seq<Chunk>, tail: seq<byte>)
    requires forall i :: 0 <= i < |cs| ==> NoMagic(cs[i].noise)
    requires NoMagic(tail)
    ensures var y := Listen(START, Stream(cs) + tail);
            y.frames == Sent(cs) && y.decoder.crcErrors == 0 && y.decoder.formatErrors == 0
  {
    NoisyRoundTrip(cs);
    ListenAppend(START, Stream(cs), tail);
    assert FRESH.buffer + tail == tail;
    NoiseIgnored(Session(FRESH, Sent(cs)), tail);
  }

  // ----- Joining in the middle --------------------------------------------------------------------------------------

  function Wire(fs: seq<UartFrame>): seq<byte> {
    if fs == [] then [] else Encode(fs[0]) + Wire(fs[1..])
  }

  // Back-to-back frames reach a hunting decoder one for one.
  lemma {:induction false} BackToBack(x: Session, fs: seq<UartFrame>)
    requires Hunting(x.decoder) && fs != []
    ensures Listen(x, Wire(fs)) == Session(x.decoder.(buffer := []), x.frames + fs)
    decreases |fs|
  {
    var y := Session(x.decoder.(buffer := []), x.frames + [fs[0]]);
    FrameThen(x, fs[0], Wire(fs[1..]));
    if |fs| > 1 {
      BackToBack(y, fs[1..]);
      assert x.frames + [fs[0]] + fs[1..] == x.frames + fs;
    } else {
      assert fs == [fs[0]];
      assert Wire(fs[1..]) == [];
    }
  }

  lemma FrameThen(x: Session, f: UartFrame, s: seq<byte>)
    requires Hunting(x.decoder)
    ensures Listen(x, Encode(f) + s) == Listen(Session(x.decoder.(buffer := []), x.frames + [f]), s)
  {
    FrameHeard(x, f);
    ListenAppend(x, Encode(f), s);
  }

  // A short stretch containing the magic ends inside the window it opens.
  lemma {:induction false} MagicEndsHunt(x: Session, s: seq<byte>)
    requires x.decoder.buffer == [] && |s| < 12 && !NoMagic(s)
    ensures 2 <= |Listen(x, s).decoder.buffer| <= |s|
    decreases |s|
  {
    var front, b := s[..|s| - 1], s[|s| - 1];
    assert s == front + [b];
    ListenSnoc(x, front, b);
    if NoMagic(front) {
      assert x.decoder.buffer + front == front;
      NoiseIgnored(x, front);
      MagicCompleted(front, b);
      WindowOpens(x, front, Listen(x, front));
    } else {
      MagicEndsHunt(x, front);
      WindowGrows(Listen(x, front), b);
    }
  }

  lemma MagicCompleted(front: seq<byte>, b: byte)
    requires NoMagic(front) && !NoMagic(front + [b])
    ensures front != [] && front[|front| - 1] == MAGIC_FIRST && b == MAGIC_SECOND
  {
    var s := front + [b];
    var i :| 0 <= i < |s| - 1 && s[i] == MAGIC_FIRST && s[i + 1] == MAGIC_SECOND;
    assert forall j :: 0 <= j < |front| ==> s[j] == front[j];
  }

  lemma WindowGrows(y: Session, b: byte)
    requires 2 <= |y.decoder.buffer| < 11
    ensures |Hear(y, b).decoder.buffer| == |y.decoder.buffer| + 1
  {
  }

  lemma WindowOpens(x: Session, front: seq<byte>, y: Session)
    requires x.decoder.buffer == [] && Ignored(x, front, y) && front != [] && front[|front| - 1] == MAGIC_FIRST
    ensures |Hear(y, MAGIC_SECOND).decoder.buffer| == 2
  {
    assert x.decoder.buffer + front == front;
  }

  lemma SettledShape(x: Session, w: seq<byte>)
    requires |w| == 12
    ensures Settled(x, w).decoder.buffer == []
    ensures |x.frames| <= |Settled(x, w).frames| <= |x.frames| + 1 && x.frames <= Settled(x, w).frames
  {
  }

  // A decoder caught inside a window spends it, at most one frame being made up of the mixture. It is
  // hunting again at the end of the next twelve bytes exactly if what they hold behind the window does
  // not contain the magic.
  lemma WindowSpent(x: Session, first: seq<byte>)
    requires ValidDecoder(x.decoder) && |x.decoder.buffer| >= 2 && |first| == 12
    ensures var y, rest := Listen(x, first), first[12 - |x.decoder.buffer|..];
            && (Hunting(y.decoder) <==> NoMagic(rest))
            && (NoMagic(rest) ==> x.frames <= y.frames && |y.frames| <= |x.frames| + 1)
  {
    var k := 12 - |x.decoder.buffer|;
    var y := WindowThenRest(x, first[..k], first[k..]);
    assert first == first[..k] + first[k..];
    RestDecides(y, first[k..]);
  }

  lemma WindowThenRest(x: Session, head: seq<byte>, rest: seq<byte>) returns (y: Session)
    requires |x.decoder.buffer| >= 2 && |x.decoder.buffer| + |head| == 12 && head != []
    ensures Listen(x, head + rest) == Listen(y, rest)
    ensures y.decoder.buffer == [] && x.frames <= y.frames && |y.frames| <= |x.frames| + 1
  {
    y := Listen(x, head);
    ListenAppend(x, head, rest);
    WindowFinished(x, head);
    SettledShape(x, x.decoder.buffer + head);
  }

  lemma RestDecides(y: Session, rest: seq<byte>)
    requires y.decoder.buffer == [] && |rest| < 12
    ensures Hunting(Listen(y, rest).decoder) <==> NoMagic(rest)
    ensures NoMagic(rest) ==> Listen(y, rest).frames == y.frames
  {
    if NoMagic(rest) {
      assert y.decoder.buffer + rest == rest;
      NoiseIgnored(y, rest);
    } else {
      MagicEndsHunt(y, rest);
    }
  }

  // After one frame, wherever inside it the decoder joined.
  ghost predicate AlignsFromAnywhere(f: UartFrame) {
    forall x: Session :: ValidDecoder(x.decoder) ==> Hunting(Listen(x, Encode(f)).decoder)
  }

  lemma NoMagicSuffix(s: seq<byte>, j: nat, k: nat)
    requires j <= k <= |s| && NoMagic(s[j..])
    ensures NoMagic(s[k..])
  {
    forall i | 0 <= i < |s[k..]| - 1
      ensures !(s[k..][i] == MAGIC_FIRST && s[k..][i + 1] == MAGIC_SECOND)
    {
      assert s[k..][i] == s[j..][k - j + i] && s[k..][i + 1] == s[j..][k - j + i + 1];
    }
  }

  lemma AlignsFrom(x: Session, f: UartFrame)
    requires ValidDecoder(x.decoder) && NoMagic(Encode(f)[1..])
    ensures Hunting(Listen(x, Encode(f)).decoder)
  {
    if Hunting(x.decoder) {
      FrameHeard(x, f);
    } else {
      NoMagicSuffix(Encode(f), 1, 12 - |x.decoder.buffer|);
      WindowSpent(x, Encode(f));
    }
  }

  // A frame aligns the decoder from every state if and only if the magic occurs in it only at its start.
  lemma AlignsExactly(f: UartFrame)
    ensures AlignsFromAnywhere(f) <==> NoMagic(Encode(f)[1..])
  {
    if NoMagic(Encode(f)[1..]) {
      forall x: Session | ValidDecoder(x.decoder) ensures Hunting(Listen(x, Encode(f)).decoder) {
        AlignsFrom(x, f);
      }
    } else {
      var late := Session(Decoder([MAGIC_FIRST, MAGIC_SECOND] + seq(9, _ => 0), 0, 0), []);
      assert ValidDecoder(late.decoder);
      WindowSpent(late, Encode(f));
    }
  }

  // From any decoder state, on back-to-back frames of which only the first is restricted, and only in
  // what it holds behind the window the decoder is in, every frame after the first is emitted exactly.
  // A hunting decoder emits the first one too, with no restriction at all.
  lemma Resynchronises(x: Session, fs: seq<UartFrame>)
    requires ValidDecoder(x.decoder) && fs != []
    requires Hunting(x.decoder) || NoMagic(Encode(fs[0])[12 - |x.decoder.buffer|..])
    ensures var got := Listen(x, Wire(fs)).frames;
            if Hunting(x.decoder) then got == x.frames + fs
            else got == x.frames + fs[1..]
                 || (|got| == |x.frames| + |fs| && got[..|x.frames|] == x.frames && got[|x.frames| + 1..] == fs[1..])
  {
    if Hunting(x.decoder) {
      BackToBack(x, fs);
    } else {
      var y := Listen(x, Encode(fs[0]));
      WindowSpent(x, Encode(fs[0]));
      ListenAppend(x, Encode(fs[0]), Wire(fs[1..]));
      if |fs| > 1 {
        BackToBack(y, fs[1..]);
        SpentThenSent(x.frames, y.frames, fs[1..]);
      }
    }
  }

  lemma SpentThenSent(before: seq<UartFrame>, spent: seq<UartFrame>, later: seq<UartFrame>)
    requires before <= spent && |spent| <= |before| + 1
    ensures spent == before
            || ((spent + later)[..|before|] == before && (spent + later)[|before| + 1..] == later)
  {
  }

  // All frames after any one frame that holds the magic only at its start come out exactly, wherever
  // the decoder joined and whatever came before.
  lemma ResynchronisesAfter(x: Session, fs: seq<UartFrame>, j: nat)
    requires ValidDecoder(x.decoder) && j < |fs| && NoMagic(Encode(fs[j])[1..])
    ensures var got, n := Listen(x, Wire(fs)).frames, |fs| - (j + 1);
            |got| >= n && got[|got| - n..] == fs[j + 1..]
  {
    var before, later := fs[..j] + [fs[j]], fs[j + 1..];
    assert fs == before + later;
    WireAppend(before, later);
    ListenAppend(x, Wire(before), Wire(later));
    AlignedAfter(x, fs[..j], fs[j]);
    if later != [] {
      BackToBack(Listen(x, Wire(before)), later);
    }
  }

  lemma AlignedAfter(x: Session, fs: seq<UartFrame>, f: UartFrame)
    requires ValidDecoder(x.decoder) && NoMagic(Encode(f)[1..])
    ensures Hunting(Listen(x, Wire(fs + [f])).decoder)
  {
    WireAppend(fs, [f]);
    OneOnWire(f);
    ListenAppend(x, Wire(fs), Encode(f));
    StaysValid(x, Wire(fs));
    AlignsFrom(Listen(x, Wire(fs)), f);
  }

  lemma {:induction false} StaysValid(x: Session, s: seq<byte>)
    requires ValidDecoder(x.decoder)
    ensures ValidDecoder(Listen(x, s).decoder)
    decreases |s|
  {
    if s != [] {
      StaysValid(x, s[..|s| - 1]);
      AcceptKeepsValid(Listen(x, s[..|s| - 1]).decoder, s[|s| - 1]);
    }
  }

  lemma {:induction false} WireAppend(fs: seq<UartFrame>, gs: seq<UartFrame>)
    ensures Wire(fs + gs) == Wire(fs) + Wire(gs)
  {
    if fs == [] {
      assert fs + gs == gs;
    } else {
      WireAppend(fs[1..], gs);
      assert (fs + gs)[1..] == fs[1..] + gs;
      Associates(Encode(fs[0]), Wire(fs[1..]), Wire(gs));
    }
  }

  lemma Associates(a: seq<byte>, b: seq<byte>, c: seq<byte>)
    ensures (a + b) + c == a + (b + c)
  {
  }

  lemma OneOnWire(f: UartFrame)
    ensures Wire([f]) == Encode(f)
  {
    assert [f][1..] == [];
    assert Encode(f) + [] == Encode(f);
  }

  predicate MagicOnlyAtStarts(s: seq<byte>) {
    forall i :: 0 <= i < |s| - 1 && s[i] == MAGIC_FIRST && s[i + 1] == MAGIC_SECOND ==> i % 12 == 0
  }

  // In particular from any decoder state if the magic occurs only at frame starts.
  lemma ResynchronisesOnCleanStream(x: Session, fs: seq<UartFrame>)
    requires ValidDecoder(x.decoder) && fs != [] && MagicOnlyAtStarts(Wire(fs))
    ensures var got, n := Listen(x, Wire(fs)).frames, |fs| - 1;
            && |got| >= n && got[|got| - n..] == fs[1..]
            && (Hunting(x.decoder) ==> got == x.frames + fs)
  {
    FirstIsClean(Encode(fs[0]), Wire(fs[1..]));
    ResynchronisesAfter(x, fs, 0);
    if Hunting(x.decoder) {
      BackToBack(x, fs);
    }
  }

  lemma FirstIsClean(first: seq<byte>, later: seq<byte>)
    requires |first| == 12 && MagicOnlyAtStarts(first + later)
    ensures NoMagic(first[1..])
  {
    var s := first + later;
    forall i | 0 <= i < |first[1..]| - 1
      ensures !(first[1..][i] == MAGIC_FIRST && first[1..][i + 1] == MAGIC_SECOND)
    {
      assert first[1..][i] == s[i + 1] && first[1..][i + 1] == s[i + 2];
    }
  }

  // ----- A stream that is never joined --------------------------------------------------------------------------------

  // The same frame n times.
  function Repeat(f: UartFrame, n: nat): seq<byte> {
    if n == 0 then [] else Repeat(f, n - 1) + Encode(f)
  }

  // The sequence number imitates the magic, and the byte two places on is no version number.
  predicate Decoy(f: UartFrame) {
    f.sequence == 0xAA55 && Unsigned(f.milliValue) / 0x100_0000 != 1
  }

  lemma DecoyBytes(f: UartFrame)
    requires Decoy(f)
    ensures Encode(f)[4] == MAGIC_FIRST && Encode(f)[5] == MAGIC_SECOND && Encode(f)[6] != VERSION
  {
  }

  lemma DecoyTail(x: Session, f: UartFrame)
    requires Decoy(f) && x.decoder.buffer == []
    ensures Listen(x, Encode(f)[4..]) == x.(decoder := x.decoder.(buffer := Encode(f)[4..]))
  {
    DecoyBytes(f);
    var tail, magic := Encode(f)[4..], [MAGIC_FIRST, MAGIC_SECOND];
    assert tail == magic + tail[2..];
    MagicHeard(x);
    ListenAppend(x, magic, tail[2..]);
    CollectAll(Listen(x, magic), tail[2..]);
    assert magic + tail[2..] == tail;
  }

  lemma DecoyTurn(x: Session, f: UartFrame)
    requires Decoy(f) && x.decoder.buffer == Encode(f)[4..]
    ensures var y := Listen(x, Encode(f));
            y.frames == x.frames && y.decoder.buffer == Encode(f)[4..]
            && y.decoder.crcErrors + y.decoder.formatErrors == x.decoder.crcErrors + x.decoder.formatErrors + 1
  {
    DecoyBytes(f);
    var head, tail := Encode(f)[..4], Encode(f)[4..];
    assert Encode(f) == head + tail;
    ListenAppend(x, head, tail);
    WindowFinished(x, head);
    assert (tail + head)[2] == Encode(f)[6];
    DecoyTail(Listen(x, head), f);
  }

  // Nothing emitted, n windows rejected, and in the middle of the next one.
  ghost predicate Stuck(y: Session, f: UartFrame, n: nat) {
    y.frames == [] && y.decoder.buffer == Encode(f)[4..] && y.decoder.crcErrors + y.decoder.formatErrors == n
  }

  // A fresh decoder that joins a repeated decoy frame at its fifth byte never emits anything, however
  // long it listens: every window it closes is rejected.
  lemma {:induction false} NeverResynchronises(f: UartFrame, n: nat)
    requires Decoy(f)
    ensures Stuck(Listen(START, Encode(f)[4..] + Repeat(f, n)), f, n)
  {
    var tail := Encode(f)[4..];
    if n == 0 {
      assert tail + Repeat(f, 0) == tail;
      DecoyTail(START, f);
    } else {
      NeverResynchronises(f, n - 1);
      assert tail + Repeat(f, n) == (tail + Repeat(f, n - 1)) + Encode(f);
      ListenAppend(START, tail + Repeat(f, n - 1), Encode(f));
      DecoyTurn(Listen(START, tail + Repeat(f, n - 1)), f);
    }
  }
}
