/** The TashTalk link: LLAP frames inside an escaped byte stream. */
module Tashtalk {
  import opened Wire
  import opened Fcs

  const MAX_FRAME: nat := 605
  const MAX_DATA: nat := 600

  /** Starts a two-byte escape; then FF is a literal zero and FD ends a frame. */
  const ESCAPE: bv8 := 0x00
  const LITERAL_ZERO: bv8 := 0xff
  const END_OF_FRAME: bv8 := 0xfd

  datatype Frame = Frame(dst: bv8, src: bv8, typ: bv8, data: Octets)

  function Encode(f: Frame): Octets { [f.dst, f.src, f.typ] + f.data }

  /** The ten-bit length in the first two bytes of a data field. */
  function LengthField(data: Octets): nat
    requires |data| >= 2
  {
    (data[0] & 0x03) as nat * 0x100 + data[1] as nat
  }

  predicate IsControl(typ: bv8) { typ == 0x81 || typ == 0x82 || typ == 0x84 || typ == 0x85 }

  /** What LLAP accepts after the three header bytes. */
  predicate LegalData(typ: bv8, data: Octets) {
    if IsControl(typ) then data == []
    else typ != 0 && typ < 0x80 && 2 <= |data| <= MAX_DATA && LengthField(data) == |data|
  }

  function Parse(p: Octets): Option<Frame> {
    if |p| < 3 || !LegalData(p[2], p[3..]) then None else Some(Frame(p[0], p[1], p[2], p[3..]))
  }

  // ------------------------------------------------------------- the decoder

  datatype State = State(buf: Octets, escaped: bool)

  const CLEAN := State([], false)

  function Kept(buf: Octets, byte: bv8): Octets { if |buf| < MAX_FRAME then buf + [byte] else buf }

  /** One byte in; a frame out when one completes cleanly. */
  function Feed(s: State, byte: bv8): (State, Option<Frame>) {
    if !s.escaped then
      (if byte == ESCAPE then s.(escaped := true) else s.(buf := Kept(s.buf, byte)), None)
    else if byte == LITERAL_ZERO then (State(Kept(s.buf, 0), false), None)
    else
      (CLEAN,
       if byte == END_OF_FRAME && |s.buf| >= 5 && ResidueOk(s.buf) then Parse(s.buf[..|s.buf| - 2]) else None)
  }

  function FeedAll(s: State, bytes: Octets): (State, seq<Frame>) {
    if bytes == [] then (s, [])
    else
      var n := |bytes| - 1;
      var (t, out) := FeedAll(s, bytes[..n]);
      var (u, f) := Feed(t, bytes[n]);
      (u, if f.Some? then out + [f.value] else out)
  }

  /** The decoder as it runs: a buffer and a flag changed byte by byte. */
  class Decoder {
    var buf: Octets
    var escaped: bool

    ghost function View(): State reads this { State(buf, escaped) }

    constructor ()
      ensures View() == CLEAN
    {
      buf, escaped := [], false;
    }

    method FeedByte(byte: bv8) returns (frame: Option<Frame>)
      modifies this
      ensures (View(), frame) == Feed(old(View()), byte)
      ensures old(|buf|) <= MAX_FRAME ==> |buf| <= MAX_FRAME
    {
      frame := None;
      if !escaped {
        if byte == 0x00 {
          escaped := true;
        } else if |buf| < MAX_FRAME {
          buf := buf + [byte];
        }
        return;
      }
      escaped := false;
      if byte == 0xff {
        if |buf| < MAX_FRAME { buf := buf + [0]; }
        return;
      }
      if byte == 0xfd {
        var n := |buf|;
        if n >= 5 && ResidueOk(buf) { frame := Parse(buf[..n - 2]); }
      }
      buf := [];
    }
  }

  // ------------------------------------------------------------- what the firmware sends

  function Escaped(bytes: Octets): Octets {
    if bytes == [] then []
    else
      var n := |bytes| - 1;
      Escaped(bytes[..n]) + if bytes[n] == 0 then [ESCAPE, LITERAL_ZERO] else [bytes[n]]
  }

  const TERMINATOR: Octets := [ESCAPE, END_OF_FRAME]

  /** A frame as it comes off the link. */
  function OnTheWire(f: Frame): Octets {
    Escaped(Encode(f) + Check(Encode(f))) + TERMINATOR
  }

  predicate Legal(f: Frame) { LegalData(f.typ, f.data) }

  // ------------------------------------------------------------- theorems

  function Emitted(f: Option<Frame>): seq<Frame> { if f.Some? then [f.value] else [] }

  lemma FeedSnoc(s: State, bytes: Octets, x: bv8)
    ensures var (t, out) := FeedAll(s, bytes);
            FeedAll(s, bytes + [x]) == (Feed(t, x).0, out + Emitted(Feed(t, x).1))
  {
    hide Feed;
    assert (bytes + [x])[..|bytes|] == bytes;
    assert FeedAll(s, bytes).1 + [] == FeedAll(s, bytes).1;
  }

  lemma FeedNone(s: State)
    ensures FeedAll(s, []) == (s, [])
  {
  }

  lemma Regroup<T>(a: seq<T>, b: seq<T>, c: seq<T>)
    ensures a + b + c == a + (b + c)
  {
  }

  lemma {:induction false} FeedConcat(s: State, a: Octets, b: Octets)
    ensures FeedAll(s, a + b) == (FeedAll(FeedAll(s, a).0, b).0, FeedAll(s, a).1 + FeedAll(FeedAll(s, a).0, b).1)
  {
    hide Feed, FeedAll, Emitted;
    var t := FeedAll(s, a).0;
    if b == [] {
      FeedNone(t);
      assert a + b == a;
      assert FeedAll(s, a).1 + FeedAll(t, b).1 == FeedAll(s, a).1;
    } else {
      var n := |b| - 1;
      var f := Feed(FeedAll(t, b[..n]).0, b[n]);
      FeedConcat(s, a, b[..n]);
      Regroup(a, b[..n], [b[n]]);
      assert b[..n] + [b[n]] == b;
      FeedSnoc(s, a + b[..n], b[n]);
      FeedSnoc(t, b[..n], b[n]);
      Regroup(FeedAll(s, a).1, FeedAll(t, b[..n]).1, Emitted(f.1));
    }
  }

  lemma FeedOne(s: State, x: bv8)
    ensures FeedAll(s, [x]) == (Feed(s, x).0, Emitted(Feed(s, x).1))
  {
    hide Feed;
    FeedSnoc(s, [], x);
    assert [] + [x] == [x];
    assert [] + Emitted(Feed(s, x).1) == Emitted(Feed(s, x).1);
  }

  lemma FeedTwo(s: State, x: bv8, y: bv8)
    ensures var (t, f) := Feed(s, x);
            FeedAll(s, [x, y]) == (Feed(t, y).0, Emitted(f) + Emitted(Feed(t, y).1))
  {
    hide Feed;
    FeedOne(s, x);
    FeedSnoc(s, [x], y);
    assert [x] + [y] == [x, y];
  }

  lemma NoFrames()
    ensures Emitted(None) + Emitted(None) == Emitted(None) == []
  {
  }

  lemma ByteIsKept(buf: Octets, x: bv8)
    requires |buf| < MAX_FRAME
    ensures FeedAll(State(buf, false), if x == 0 then [ESCAPE, LITERAL_ZERO] else [x]) == (State(buf + [x], false), [])
  {
    hide ResidueOk, Parse, FeedAll;
    NoFrames();
    if x == 0 { FeedTwo(State(buf, false), ESCAPE, LITERAL_ZERO); } else { FeedOne(State(buf, false), x); }
  }

  /** Escaped bytes go into the buffer as they were, and nothing comes out. */
  lemma {:induction false} EscapedBytesAreKept(buf: Octets, bytes: Octets)
    requires |buf| + |bytes| <= MAX_FRAME
    ensures FeedAll(State(buf, false), Escaped(bytes)) == (State(buf + bytes, false), [])
  {
    hide Feed, FeedAll;
    NoFrames();
    if bytes == [] {
      assert buf + bytes == buf;
      FeedNone(State(buf, false));
    } else {
      var n := |bytes| - 1;
      EscapedBytesAreKept(buf, bytes[..n]);
      FeedConcat(State(buf, false), Escaped(bytes[..n]), if bytes[n] == 0 then [ESCAPE, LITERAL_ZERO] else [bytes[n]]);
      ByteIsKept(buf + bytes[..n], bytes[n]);
      assert buf + bytes[..n] + [bytes[n]] == buf + bytes;
    }
  }

  /** The frames LLAP knows: four kinds of control frame, which carry nothing, and data
      frames of 2 to 600 bytes that begin with their own length in ten bits. */
  lemma LegalIsLlap(f: Frame)
    ensures Legal(f) <==>
            || ((f.typ == 0x81 || f.typ == 0x82 || f.typ == 0x84 || f.typ == 0x85) && f.data == [])
            || (0x01 <= f.typ <= 0x7f && 2 <= |f.data| <= 600
                && |f.data| == (f.data[0] & 0x03) as nat * 256 + f.data[1] as nat)
  {
  }

  /** Reading is exact: bytes read as a frame exactly when they are a legal frame's own,
      its two nodes and its type in front of its data. */
  lemma ParseIsExact(p: Octets, f: Frame)
    ensures Parse(p) == Some(f) <==> Legal(f) && p == [f.dst, f.src, f.typ] + f.data
  {
    if |p| >= 3 { assert p == [p[0], p[1], p[2]] + p[3..]; }
    if p == [f.dst, f.src, f.typ] + f.data { assert p[3..] == f.data; }
  }

  lemma EncodedParses(f: Frame)
    requires Legal(f)
    ensures Parse(Encode(f)) == Some(f) && 3 <= |Encode(f)| <= MAX_FRAME - 2
  {
    assert Encode(f)[3..] == f.data;
  }

  lemma TerminatorEndsFrame(f: Frame)
    requires Legal(f)
    ensures FeedAll(State(Encode(f) + Check(Encode(f)), false), TERMINATOR) == (CLEAN, [f])
  {
    var e, c := Encode(f), Check(Encode(f));
    hide ResidueOk, Check, Parse, Encode;
    EncodedParses(f);
    CheckChecksOut(e);
    OnlyTheCheckChecksOut(e, c);
    assert (e + c)[..|e + c| - 2] == e;
    FeedTwo(State(e + c, false), ESCAPE, END_OF_FRAME);
    assert Feed(State(e + c, false), ESCAPE) == (State(e + c, true), None);
    assert [] + [f] == [f];
    assert Feed(State(e + c, true), END_OF_FRAME) == (CLEAN, Some(f));
  }

  /** What is in the buffer when the terminator comes. */
  lemma FrameIsBuffered(f: Frame)
    requires Legal(f)
    ensures var sent := Encode(f) + Check(Encode(f)); FeedAll(CLEAN, Escaped(sent)) == (State(sent, false), [])
  {
    hide Feed, FeedAll, Escaped, Check, Parse, Encode;
    var sent := Encode(f) + Check(Encode(f));
    EncodedParses(f);
    CheckChecksOut(Encode(f));
    EscapedBytesAreKept([], sent);
    assert [] + sent == sent;
  }

  /** Nothing comes out before the last byte. */
  lemma NothingComesEarly(f: Frame, k: nat)
    requires Legal(f) && k < |OnTheWire(f)|
    ensures FeedAll(CLEAN, OnTheWire(f)[..k]).1 == []
  {
    hide FeedAll, Escaped, Check, Parse, Encode, ResidueOk;
    var w, sent := OnTheWire(f), Encode(f) + Check(Encode(f));
    var n := |w| - 1;
    FrameIsBuffered(f);
    assert w[..n] == Escaped(sent) + [ESCAPE];
    FeedSnoc(CLEAN, Escaped(sent), ESCAPE);
    FeedConcat(CLEAN, w[..k], w[k..n]);
    assert w[..k] + w[k..n] == w[..n];
  }

  /** The round trip: from a clean decoder, a legal frame sent with its check
      sequence comes out, at the very last byte, and the decoder is clean again. */
  lemma FrameComesThrough(f: Frame)
    requires Legal(f)
    ensures FeedAll(CLEAN, OnTheWire(f)) == (CLEAN, [f])
    ensures forall k :: 0 <= k < |OnTheWire(f)| ==> FeedAll(CLEAN, OnTheWire(f)[..k]).1 == []
  {
    hide Feed, FeedAll, Escaped, Check, Parse, Encode;
    FrameIsBuffered(f);
    FeedConcat(CLEAN, Escaped(Encode(f) + Check(Encode(f))), TERMINATOR);
    TerminatorEndsFrame(f);
    assert [] + [f] == [f];
    forall k | 0 <= k < |OnTheWire(f)| ensures FeedAll(CLEAN, OnTheWire(f)[..k]).1 == [] {
      NothingComesEarly(f, k);
    }
  }

  /** Two terminators leave any decoder clean, whatever it was in the middle of. */
  lemma TwoTerminatorsResynchronise(s: State)
    ensures FeedAll(s, TERMINATOR + TERMINATOR).0 == CLEAN
  {
    FeedConcat(s, TERMINATOR, TERMINATOR);
    FeedTwo(s, ESCAPE, END_OF_FRAME);
    FeedTwo(FeedAll(s, TERMINATOR).0, ESCAPE, END_OF_FRAME);
  }

  /** After any noise and two terminators, a legal frame still comes through. */
  lemma FrameComesThroughAfterNoise(noise: Octets, f: Frame)
    requires Legal(f)
    ensures var (s, out) := FeedAll(CLEAN, noise + (TERMINATOR + TERMINATOR) + OnTheWire(f));
            s == CLEAN && out == FeedAll(CLEAN, noise + (TERMINATOR + TERMINATOR)).1 + [f]
  {
    var all := noise + (TERMINATOR + TERMINATOR);
    FeedConcat(CLEAN, noise, TERMINATOR + TERMINATOR);
    TwoTerminatorsResynchronise(FeedAll(CLEAN, noise).0);
    FrameComesThrough(f);
    FeedConcat(CLEAN, all, OnTheWire(f));
  }

  lemma {:induction false} BufferIsBounded(bytes: Octets)
    ensures |FeedAll(CLEAN, bytes).0.buf| <= 605
  {
    hide ResidueOk, Parse;
    if bytes != [] { BufferIsBounded(bytes[..|bytes| - 1]); }
  }

  /** Whatever comes out was sent: the buffer held a legal frame and its own check
      sequence, byte for byte. */
  lemma OnlyCheckedFramesComeOut(s: State, byte: bv8)
    requires Feed(s, byte).1.Some?
    ensures var f := Feed(s, byte).1.value;
            Legal(f) && s.buf == Encode(f) + Check(Encode(f)) && byte == END_OF_FRAME && Feed(s, byte).0 == CLEAN
  {
    hide ResidueOk, Check;
    var n := |s.buf|;
    var e, x := s.buf[..n - 2], s.buf[n - 2..];
    var f := Feed(s, byte).1.value;
    assert e == Encode(f);
    assert s.buf == e + x;
    OnlyTheCheckChecksOut(e, x);
  }
}
